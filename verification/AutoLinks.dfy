/**
 Auto-link stripping: Slack shows a URL inside a topic or purpose as `<URL>` or `<URL|label>`, and
 drift detection compares the desired text with what is left once that markup is removed. The
 original is one regular-expression replacement, pattern `<([^|>]+)(?:\|[^>]*)?>` by group 1.

 The module gives that replacement three times: as a relation on match spans (what the pattern and
 "leftmost, non-overlapping" mean), as a recursive function (`Strip`, the model used elsewhere) and
 as a one-pass scanner that holds back at most one open link; and it proves that they agree.
 */
module AutoLinks {
  import opened Outcomes

  // ---------- The pattern, declaratively ----------

  /** The characters `[^|>]`. Note that `<` is one of them. */
  predicate IsRunChar(c: char) {
    c != '|' && c != '>'
  }

  ghost predicate IsRun(s: string) {
    s != "" && forall k :: 0 <= k < |s| ==> IsRunChar(s[k])
  }

  ghost predicate IsLabel(s: string) {
    forall k :: 0 <= k < |s| ==> s[k] != '>'
  }

  /** What the markup of one link looks like. */
  function Markup(run: string, tag: Option<string>): (r: string) {
    (if tag.Some? then "<" + run + ("|" + tag.value) else "<" + run) + ">"
  }

  /** The pattern matches the whole of `m`, with capture group 1 equal to `run`. */
  ghost predicate Matches(m: string, run: string) {
    IsRun(run) && (m == Markup(run, None) || exists tag :: IsLabel(tag) && m == Markup(run, Some(tag)))
  }

  /** The pattern matches somewhere in `s`. */
  ghost predicate HasMatch(s: string) {
    exists i, j, run :: MatchAt(s, i, j, run)
  }

  /** The pattern matches `s[i..j]`, with capture group 1 equal to `run`. */
  ghost predicate MatchAt(s: string, i: int, j: int, run: string) {
    0 <= i <= j <= |s| && Matches(s[i..j], run)
  }

  // ---------- The match at the head of a string ----------

  datatype Hit = Miss | Hit(run: string, size: nat)

  /** Length of the longest prefix made of run characters. */
  function RunLength(s: string): (n: nat)
    ensures n <= |s|
    ensures forall k :: 0 <= k < n ==> IsRunChar(s[k])
    ensures n < |s| ==> !IsRunChar(s[n])
  {
    if s != "" && IsRunChar(s[0]) then 1 + RunLength(s[1..]) else 0
  }

  /** Length of the longest prefix without `>`. */
  function LabelLength(s: string): (n: nat)
    ensures n <= |s|
    ensures forall k :: 0 <= k < n ==> s[k] != '>'
    ensures n < |s| ==> s[n] == '>'
  {
    if s != "" && s[0] != '>' then 1 + LabelLength(s[1..]) else 0
  }

  /** The match that starts at the first character of `s`, if any. */
  function HeadHit(s: string): (h: Hit)
    ensures h.Hit? ==> 3 <= |h.run| + 2 <= h.size <= |s|
  {
    if s == "" || s[0] != '<' then Miss else
    var n := RunLength(s[1..]);
    if n == 0 || 1 + n == |s| then Miss
    else if s[1 + n] == '>' then Hit(s[1..1 + n], n + 2)
    else
      var m := LabelLength(s[n + 2..]);
      if n + 2 + m == |s| then Miss else Hit(s[1..1 + n], n + 3 + m)
  }

  lemma RunLengthExact(s: string, n: nat)
    requires n < |s| && (forall k :: 0 <= k < n ==> IsRunChar(s[k])) && !IsRunChar(s[n])
    ensures RunLength(s) == n
  {
  }

  lemma LabelLengthExact(s: string, n: nat)
    requires n < |s| && (forall k :: 0 <= k < n ==> s[k] != '>') && s[n] == '>'
    ensures LabelLength(s) == n
  {
  }

  /** A prefix of `s` matches the pattern exactly when it is the hit at the head. */
  lemma HeadHitIsTheMatch(s: string, j: nat, run: string)
    requires j <= |s|
    ensures Matches(s[..j], run) <==> HeadHit(s) == Hit(run, j)
  {
    if Matches(s[..j], run) {
      MatchIsHeadHit(s, j, run);
    }
    if HeadHit(s) == Hit(run, j) {
      HeadHitMatches(s);
    }
  }

  lemma MatchIsHeadHit(s: string, j: nat, run: string)
    requires j <= |s| && Matches(s[..j], run)
    ensures HeadHit(s) == Hit(run, j)
  {
    if s[..j] == Markup(run, None) {
      BareHeadHit(run, s[j..]);
      assert s == Markup(run, None) + s[j..];
    } else {
      var tag :| IsLabel(tag) && s[..j] == Markup(run, Some(tag));
      LabelledHeadHit(run, tag, s[j..]);
      assert s == Markup(run, Some(tag)) + s[j..];
    }
  }

  lemma BareHeadHit(run: string, rest: string)
    requires IsRun(run)
    ensures HeadHit(Markup(run, None) + rest) == Hit(run, |run| + 2)
  {
    var s := Markup(run, None) + rest;
    assert s[1..] == run + ">" + rest;
    RunLengthExact(s[1..], |run|);
    assert s[1..1 + |run|] == run;
  }

  lemma LabelledHeadHit(run: string, tag: string, rest: string)
    requires IsRun(run) && IsLabel(tag)
    ensures HeadHit(Markup(run, Some(tag)) + rest) == Hit(run, |run| + |tag| + 3)
  {
    var s := Markup(run, Some(tag)) + rest;
    assert s[1..] == run + "|" + tag + ">" + rest;
    RunLengthExact(s[1..], |run|);
    assert s[1..1 + |run|] == run;
    assert s[|run| + 2..] == tag + ">" + rest;
    LabelLengthExact(s[|run| + 2..], |tag|);
  }

  lemma HeadHitMatches(s: string)
    requires HeadHit(s).Hit?
    ensures Matches(s[..HeadHit(s).size], HeadHit(s).run)
  {
    var n := RunLength(s[1..]);
    RunAtIsRun(s, n);
    if s[1 + n] == '>' {
      BarePrefix(s, n);
    } else {
      var m := LabelLength(s[n + 2..]);
      LabelAtIsLabel(s, n + 2, m);
      LabelledPrefix(s, n, m);
    }
    hide RunLength, LabelLength, IsRun, IsLabel, Markup;
  }

  lemma RunAtIsRun(s: string, n: nat)
    requires s != "" && 0 < n == RunLength(s[1..])
    ensures 1 + n <= |s| && IsRun(s[1..1 + n]) && (1 + n < |s| ==> !IsRunChar(s[1 + n]))
  {
    var run := s[1..1 + n];
    forall k | 0 <= k < n ensures IsRunChar(run[k]) {
      assert s[1..][k] == s[1 + k];
    }
    assert 1 + n < |s| ==> s[1..][n] == s[1 + n];
    hide RunLength;
  }

  lemma LabelAtIsLabel(s: string, from: nat, m: nat)
    requires from <= |s| && m == LabelLength(s[from..])
    ensures from + m <= |s| && IsLabel(s[from..from + m]) && (from + m < |s| ==> s[from + m] == '>')
  {
    var tag := s[from..from + m];
    forall k | 0 <= k < m ensures tag[k] != '>' {
      assert s[from..][k] == s[from + k];
    }
    assert from + m < |s| ==> s[from..][m] == s[from + m];
    hide LabelLength;
  }

  lemma BarePrefix(s: string, n: nat)
    requires 1 + n < |s| && s[0] == '<' && s[1 + n] == '>'
    ensures s[..n + 2] == Markup(s[1..1 + n], None)
  {
  }

  lemma LabelledPrefix(s: string, n: nat, m: nat)
    requires n + 2 + m < |s| && s[0] == '<' && s[1 + n] == '|' && s[n + 2 + m] == '>'
    ensures s[..n + 3 + m] == Markup(s[1..1 + n], Some(s[n + 2..n + 2 + m]))
  {
    var run, tag := s[1..1 + n], s[n + 2..n + 2 + m];
    assert s[..n + 3 + m] == "<" + run + ("|" + tag) + ">";
  }

  /** The match that starts at a given index is unique: the run after `<` is forced. */
  lemma MatchIsDeterministic(s: string, i: int, j: int, run: string, j': int, run': string)
    requires MatchAt(s, i, j, run) && MatchAt(s, i, j', run')
    ensures j == j' && run == run'
  {
    MatchAtIsHeadHit(s, i, j, run);
    MatchAtIsHeadHit(s, i, j', run');
  }

  lemma MatchAtIsHeadHit(s: string, i: int, j: int, run: string)
    requires 0 <= i <= j <= |s|
    ensures MatchAt(s, i, j, run) <==> HeadHit(s[i..]) == Hit(run, j - i)
  {
    assert s[i..][..j - i] == s[i..j];
    HeadHitIsTheMatch(s[i..], j - i, run);
  }

  // ---------- The replacement ----------

  /** The text with every leftmost, non-overlapping match replaced by its capture group 1. */
  function Strip(s: string): (r: string)
    ensures |r| <= |s|
  {
    if s == "" then ""
    else
      match HeadHit(s)
      case Hit(run, size) => run + Strip(s[size..])
      case Miss => [s[0]] + Strip(s[1..])
  }

  datatype Span = Span(start: nat, end: nat, run: string)

  /** `spans` are the matches that a left-to-right search from `from` selects: each is the first
      match at or after the end of the one before, and after the last there is no further match. */
  ghost predicate Selects(s: string, from: nat, spans: seq<Span>)
    requires from <= |s|
    decreases |spans|
  {
    if spans == [] then
      forall i, j, run | from <= i :: !MatchAt(s, i, j, run)
    else
      var m := spans[0];
      && from <= m.start
      && MatchAt(s, m.start, m.end, m.run)
      && (forall i, j, run | from <= i < m.start :: !MatchAt(s, i, j, run))
      && Selects(s, m.end, spans[1..])
  }

  /** `s[from..]` with the given spans replaced. */
  ghost function Substitute(s: string, from: nat, spans: seq<Span>): string
    requires from <= |s| && Selects(s, from, spans)
    decreases |spans|
  {
    if spans == [] then s[from..]
    else s[from..spans[0].start] + spans[0].run + Substitute(s, spans[0].end, spans[1..])
  }

  /** Text in which no match starts is copied through unchanged. */
  lemma {:induction false} StripCopies(s: string, from: nat, to: nat)
    requires from <= to <= |s|
    requires forall i, j, run | from <= i < to :: !MatchAt(s, i, j, run)
    ensures Strip(s[from..]) == s[from..to] + Strip(s[to..])
    decreases |s| - from
  {
    hide HeadHit, Strip;
    if from == to {
      assert s[from..to] == "";
    } else {
      var h := HeadHit(s[from..]);
      if h.Hit? {
        MatchAtIsHeadHit(s, from, from + h.size, h.run);
        assert false;
      }
      StripCopies(s, from + 1, to);
      StripMiss(s[from..]);
      HeadOfSlice(s, from, to);
      Associates([s[from]], s[from + 1..to], Strip(s[to..]));
    }
  }

  lemma StripMiss(s: string)
    requires s != "" && HeadHit(s).Miss?
    ensures Strip(s) == [s[0]] + Strip(s[1..])
  {
  }

  lemma HeadOfSlice(s: string, from: nat, to: nat)
    requires from < to <= |s|
    ensures s[from..][0] == s[from] && s[from..][1..] == s[from + 1..] && s[from..to] == [s[from]] + s[from + 1..to]
  {
  }

  /** A match at the head is replaced by its run. */
  lemma StripReplaces(s: string, m: Span)
    requires MatchAt(s, m.start, m.end, m.run)
    ensures Strip(s[m.start..]) == m.run + Strip(s[m.end..])
  {
    hide Strip, HeadHit, Matches;
    MatchAtIsHeadHit(s, m.start, m.end, m.run);
    StripHit(s[m.start..]);
    assert s[m.start..][m.end - m.start..] == s[m.end..];
  }

  lemma StripHit(s: string)
    requires HeadHit(s).Hit?
    ensures Strip(s) == HeadHit(s).run + Strip(s[HeadHit(s).size..])
  {
    hide HeadHit;
  }

  /** Refinement: stripping is the leftmost, non-overlapping replacement the pattern defines. */
  lemma {:induction false} StripIsLeftmostReplacement(s: string, from: nat, spans: seq<Span>)
    requires from <= |s| && Selects(s, from, spans)
    ensures Strip(s[from..]) == Substitute(s, from, spans)
    decreases |spans|
  {
    hide HeadHit, Matches;
    if spans == [] {
      StripCopies(s, from, |s|);
      assert s[from..|s|] == s[from..];
    } else {
      var m := spans[0];
      StripCopies(s, from, m.start);
      StripReplaces(s, m);
      StripIsLeftmostReplacement(s, m.end, spans[1..]);
    }
  }

  /** Every string decomposes into match-free gaps and matches... */
  lemma {:induction false} SelectionExists(s: string, from: nat) returns (spans: seq<Span>)
    requires from <= |s|
    ensures Selects(s, from, spans)
    decreases |s| - from
  {
    if i, j, run :| from <= i && MatchAt(s, i, j, run) {
      var first, end, r := FirstMatch(s, from, i, j, run);
      MatchAtIsHeadHit(s, first, end, r);
      var rest := SelectionExists(s, end);
      spans := [Span(first, end, r)] + rest;
      assert spans[1..] == rest;
    } else {
      spans := [];
    }
  }

  lemma {:induction false} FirstMatch(s: string, from: nat, i: int, j: int, run: string)
    returns (first: nat, end: nat, r: string)
    requires from <= i && MatchAt(s, i, j, run)
    ensures from <= first <= i && MatchAt(s, first, end, r)
    ensures forall i', j', run' | from <= i' < first :: !MatchAt(s, i', j', run')
    decreases i
  {
    if i', j', run' :| from <= i' < i && MatchAt(s, i', j', run') {
      first, end, r := FirstMatch(s, from, i', j', run');
    } else {
      first, end, r := i, j, run;
    }
  }

  /** ... in exactly one way. */
  lemma {:induction false} SelectionIsUnique(s: string, from: nat, a: seq<Span>, b: seq<Span>)
    requires from <= |s| && Selects(s, from, a) && Selects(s, from, b)
    ensures a == b
    decreases |a|
  {
    if a != [] && b != [] {
      assert a[0].start == b[0].start;
      MatchIsDeterministic(s, a[0].start, a[0].end, a[0].run, b[0].end, b[0].run);
      SelectionIsUnique(s, a[0].end, a[1..], b[1..]);
      assert a == [a[0]] + a[1..] && b == [b[0]] + b[1..];
    }
  }

  // ---------- The measure: fixed points and termination of repeated stripping ----------

  lemma MatchInSuffix(s: string, from: nat)
    requires from <= |s| && HasMatch(s[from..])
    ensures HasMatch(s)
  {
    var i, j, run :| MatchAt(s[from..], i, j, run);
    assert s[from..][i..j] == s[from + i..from + j];
    assert MatchAt(s, from + i, from + j, run);
  }

  /** The output is strictly shorter exactly when the input contains a match. */
  lemma {:induction false} ShorterIffMatch(s: string)
    ensures |Strip(s)| < |s| <==> HasMatch(s)
  {
    if s == "" {
      hide HeadHit, Matches;
      NoMatchInEmpty();
    } else {
      hide HeadHit, HasMatch;
      HasMatchIff(s);
      if HeadHit(s).Miss? {
        ShorterIffMatch(s[1..]);
      } else {
        HitIsLonger(s);
      }
    }
  }

  lemma NoMatchInEmpty()
    ensures !HasMatch("")
  {
    if i, j, run :| MatchAt("", i, j, run) {
      MatchAtIsHeadHit("", i, j, run);
    }
  }

  lemma HitIsLonger(s: string)
    requires HeadHit(s).Hit?
    ensures |HeadHit(s).run| < HeadHit(s).size <= |s|
  {
  }

  /** A match is at the head or in the rest. */
  lemma HasMatchIff(s: string)
    requires s != ""
    ensures HasMatch(s) <==> HeadHit(s).Hit? || HasMatch(s[1..])
  {
    hide HeadHit, Matches;
    assert s[0..] == s;
    if HeadHit(s).Hit? {
      var h := HeadHit(s);
      MatchAtIsHeadHit(s, 0, h.size, h.run);
      assert MatchAt(s, 0, h.size, h.run);
    } else if HasMatch(s[1..]) {
      MatchInSuffix(s, 1);
    } else if i, j, run :| MatchAt(s, i, j, run) {
      if i == 0 {
        MatchAtIsHeadHit(s, 0, j, run);
      } else {
        MatchMovesDown(s, i, j, run);
      }
    }
  }

  lemma MatchMovesDown(s: string, i: int, j: int, run: string)
    requires MatchAt(s, i, j, run) && i > 0
    ensures MatchAt(s[1..], i - 1, j - 1, run)
  {
    hide Matches;
    assert s[1..][i - 1..j - 1] == s[i..j];
  }

  /** The fixed points are exactly the match-free strings. */
  lemma FixedIffNoMatch(s: string)
    ensures Strip(s) == s <==> !HasMatch(s)
  {
    ShorterIffMatch(s);
    if !HasMatch(s) {
      StripCopies(s, 0, |s|);
      assert s[0..] == s && s[0..|s|] == s && s[|s|..] == "";
    }
  }

  /** Stripping again and again until nothing changes. */
  function Settle(s: string): (r: string)
    ensures Strip(r) == r
    decreases |s|
  {
    var t := Strip(s);
    if t == s then s
    else
      FixedIffNoMatch(s);
      ShorterIffMatch(s);
      Settle(t)
  }

  /** Repeated stripping ends in a match-free string, and one pass is already enough exactly when
      its output has no match left. */
  lemma SettleEndsMatchFree(s: string)
    ensures !HasMatch(Settle(s))
    ensures Settle(s) == Strip(s) <==> !HasMatch(Strip(s))
  {
    FixedIffNoMatch(Settle(s));
    FixedIffNoMatch(Strip(s));
  }

  /** One pass is not always enough: nested brackets leave a match behind. */
  lemma OnePassNotIdempotent()
    ensures Strip("<<a>>") == "<a>" && Strip(Strip("<<a>>")) == "a"
  {
    assert IsRun("<a") && IsRun("a");
    hide Strip, HeadHit, IsRun, Markup;
    Unwrap("<a", "", None, ">");
    Unwrap("a", "", None, "");
    StripKeepsText(">", "");
    StripEmpty();
    Spelled();
  }

  lemma StripEmpty()
    ensures Strip("") == ""
  {
  }

  lemma Spelled()
    ensures Markup("<a", None) + ">" == "<<a>>" && Markup("a", None) + "" == "<a>"
    ensures "<a" + ">" == "<a>" && "a" + "" == "a" && ">" + "" == ">"
  {
  }

  lemma Unwrap(run: string, tag: string, mark: Option<string>, rest: string)
    requires IsRun(run) && IsLabel(tag) && (mark == None || mark == Some(tag))
    ensures Strip(Markup(run, mark) + rest) == run + Strip(rest)
  {
    var m := Markup(run, mark);
    assert (m + rest)[..|m|] == m && (m + rest)[|m|..] == rest;
    HeadHitIsTheMatch(m + rest, |m|, run);
  }

  // ---------- Round trip with a link encoder ----------

  datatype Piece = Text(text: string) | Link(url: string, tag: Option<string>)

  ghost predicate WellFormed(p: Piece) {
    match p
    case Text(t) => forall k :: 0 <= k < |t| ==> t[k] != '<'
    case Link(url, tag) => IsRun(url) && (tag.Some? ==> IsLabel(tag.value))
  }

  /** The text as Slack reports it, links wrapped. */
  function Encode(ps: seq<Piece>): (r: string) {
    if ps == [] then "" else
    (match ps[0]
     case Text(t) => t
     case Link(url, tag) => Markup(url, tag)) + Encode(ps[1..])
  }

  /** The text as the author wrote it, links bare. */
  function Plain(ps: seq<Piece>): (r: string) {
    if ps == [] then "" else
    (match ps[0]
     case Text(t) => t
     case Link(url, _) => url) + Plain(ps[1..])
  }

  lemma HeadAndTail(t: string, rest: string)
    requires t != ""
    ensures t + rest != "" && (t + rest)[0] == t[0] && (t + rest)[1..] == t[1..] + rest && t == [t[0]] + t[1..]
  {
  }

  lemma StripPasses(s: string)
    requires s != "" && s[0] != '<'
    ensures Strip(s) == [s[0]] + Strip(s[1..])
  {
  }

  lemma {:induction false} StripKeepsText(t: string, rest: string)
    requires forall k :: 0 <= k < |t| ==> t[k] != '<'
    ensures Strip(t + rest) == t + Strip(rest)
    decreases |t|
  {
    hide Strip, HeadHit;
    if t == "" {
      assert t + rest == rest;
    } else {
      StripKeepsText(t[1..], rest);
      HeadAndTail(t, rest);
      StripPasses(t + rest);
      Associates([t[0]], t[1..], Strip(rest));
    }
  }

  /** Round trip: stripping undoes the link encoding of any interleaving of text and links. */
  lemma {:induction false} StripUndoesEncode(ps: seq<Piece>)
    requires forall k :: 0 <= k < |ps| ==> WellFormed(ps[k])
    ensures Strip(Encode(ps)) == Plain(ps)
    decreases |ps|
  {
    if ps == [] {
    } else {
      assert WellFormed(ps[0]);
      StripUndoesEncode(ps[1..]);
      match ps[0]
      case Text(t) => StripKeepsText(t, Encode(ps[1..]));
      case Link(url, tag) => Unwrap(url, tag.GetOr(""), tag, Encode(ps[1..]));
    }
  }

  // ---------- One-pass scanner ----------

  /** What the scanner holds back: nothing, an opened run, or a run with an opened label. */
  datatype Held = Nothing | Run(run: string) | Labelled(run: string, tag: string)

  function HeldText(h: Held): (r: string) {
    match h
    case Nothing => ""
    case Run(run) => "<" + run
    case Labelled(run, tag) => "<" + run + ("|" + tag)
  }

  ghost predicate HeldOk(h: Held) {
    match h
    case Nothing => true
    case Run(run) => run == "" || IsRun(run)
    case Labelled(run, tag) => IsRun(run) && IsLabel(tag)
  }

  lemma MatchEndsWithCloser(m: string, run: string)
    requires Matches(m, run)
    ensures m != "" && m[|m| - 1] == '>'
  {
  }

  lemma {:induction false} NoCloserNoChange(s: string)
    requires IsLabel(s)
    ensures Strip(s) == s
  {
    forall i, j, run ensures !MatchAt(s, i, j, run) {
      if MatchAt(s, i, j, run) {
        MatchEndsWithCloser(s[i..j], run);
      }
    }
    FixedIffNoMatch(s);
  }

  lemma HeldHasNoCloser(h: Held)
    requires HeldOk(h)
    ensures Strip(HeldText(h)) == HeldText(h)
  {
    NoCloserNoChange(HeldText(h));
  }

  /** One transition: what is written out, and what is held back next. */
  function Advance(h: Held, c: char): (string, Held) {
    match h
    case Nothing => if c == '<' then ("", Run("")) else ([c], Nothing)
    case Run(run) =>
      if IsRunChar(c) then ("", Run(run + [c]))
      else if run == "" then ("<" + [c], Nothing)
      else if c == '>' then (run, Nothing)
      else ("", Labelled(run, ""))
    case Labelled(run, tag) =>
      if c == '>' then (run, Nothing) else ("", Labelled(run, tag + [c]))
  }

  lemma AdvanceKeepsHeldOk(h: Held, c: char)
    requires HeldOk(h)
    ensures HeldOk(Advance(h, c).1)
  {
  }

  /** A transition never has to be taken back. */
  lemma AdvanceStrips(h: Held, c: char, rest: string)
    requires HeldOk(h)
    ensures Strip(HeldText(h) + ([c] + rest)) == Advance(h, c).0 + Strip(HeldText(Advance(h, c).1) + rest)
  {
    hide Strip, HeadHit;
    var (emit, next) := Advance(h, c);
    if next == Nothing {
      AdvanceFlushes(h, c, rest);
      assert HeldText(next) + rest == rest;
    } else {
      hide HeldOk;
      Associates(HeldText(h), [c], rest);
      assert HeldText(h) + [c] == HeldText(next);
      assert emit == "";
    }
  }

  lemma AdvanceFlushes(h: Held, c: char, rest: string)
    requires HeldOk(h) && Advance(h, c).1 == Nothing
    ensures Strip(HeldText(h) + ([c] + rest)) == Advance(h, c).0 + Strip(rest)
  {
    hide Strip, HeadHit;
    Associates(HeldText(h), [c], rest);
    match h
    case Nothing =>
      StripKeepsText([c], rest);
      assert "" + [c] == [c];
    case Run(run) => CloseRun(run, c, rest);
    case Labelled(run, tag) => Unwrap(run, tag, Some(tag), rest);
  }

  lemma CloseRun(run: string, c: char, rest: string)
    requires run == "" || IsRun(run)
    requires !IsRunChar(c) && (run == "" || c == '>')
    ensures Strip("<" + run + [c] + rest) == (if run == "" then "<" + [c] else run) + Strip(rest)
  {
    hide Strip, HeadHit;
    if run == "" {
      EmptyRunFails(c, rest);
      assert "<" + run == "<";
    } else {
      Unwrap(run, "", None, rest);
    }
  }

  /** An empty run cannot match, whatever follows. */
  lemma EmptyRunFails(c: char, rest: string)
    requires !IsRunChar(c)
    ensures Strip("<" + [c] + rest) == "<" + [c] + Strip(rest)
  {
    var s := "<" + [c] + rest;
    hide LabelLength;
    assert s[1..] == [c] + rest;
    assert RunLength(s[1..]) == 0;
    StripKeepsText([c], rest);
    hide RunLength;
    assert HeadHit(s) == Miss;
    hide HeadHit;
    assert Strip(s) == "<" + Strip([c] + rest);
    Associates("<", [c], Strip(rest));
  }

  /** What the scan owes for `s`: what is written so far, then the replacement of what is held and unread. */
  ghost predicate Owes(s: string, out: string, held: Held, unread: string) {
    HeldOk(held) && Strip(s) == out + Strip(HeldText(held) + unread)
  }

  lemma AdvanceOwes(s: string, out: string, held: Held, c: char, rest: string)
    requires Owes(s, out, held, [c] + rest)
    ensures var (emit, next) := Advance(held, c); Owes(s, out + emit, next, rest)
  {
    hide Strip, HeldText, Advance, HeldOk;
    AdvanceStrips(held, c, rest);
    AdvanceKeepsHeldOk(held, c);
    var (emit, next) := Advance(held, c);
    Associates(out, emit, Strip(HeldText(next) + rest));
  }

  lemma Associates(a: string, b: string, c: string)
    ensures a + (b + c) == a + b + c
  {
  }

  lemma OwesAtStart(s: string)
    ensures Owes(s, "", Nothing, s)
  {
    assert HeldText(Nothing) + s == s;
    hide Strip;
  }

  lemma OwesAtEnd(s: string, out: string, held: Held)
    requires Owes(s, out, held, "")
    ensures Strip(s) == out + HeldText(held)
  {
    HeldHasNoCloser(held);
    hide Strip, HeldOk;
    assert HeldText(held) + "" == HeldText(held);
  }

  /** Refinement: one left-to-right pass that never backs up computes the same replacement. */
  method Scan(s: string) returns (out: string)
    ensures out == Strip(s)
  {
    hide *;
    out := "";
    var held := Nothing;
    var i := 0;
    OwesAtStart(s);
    assert s[0..] == s;
    while i < |s|
      invariant 0 <= i <= |s| && Owes(s, out, held, s[i..])
    {
      assert s[i..] == [s[i]] + s[i + 1..];
      AdvanceOwes(s, out, held, s[i], s[i + 1..]);
      var (emit, next) := Advance(held, s[i]);
      out, held := out + emit, next;
      i := i + 1;
    }
    assert s[|s|..] == "";
    OwesAtEnd(s, out, held);
    out := out + HeldText(held);
  }
}
