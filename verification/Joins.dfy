/** Joining strings with a separator, as the client does with user IDs and the controllers with emails. */
module Joins {

  function Join(ss: seq<string>, separator: string): (r: string) {
    if ss == [] then ""
    else if |ss| == 1 then ss[0]
    else Join(ss[..|ss| - 1], separator) + separator + ss[|ss| - 1]
  }

  /** The accumulating loop of both joins. */
  method JoinStrings(ss: seq<string>, separator: string) returns (result: string)
    ensures result == Join(ss, separator)
  {
    result := "";
    for i := 0 to |ss|
      invariant result == Join(ss[..i], separator)
    {
      if i > 0 {
        result := result + separator;
      }
      result := result + ss[i];
      assert ss[..i + 1][..i] == ss[..i];
      assert i == 0 ==> "" + ss[0] == ss[0];
    }
    assert ss[..|ss|] == ss;
  }

  ghost predicate CommaFree(s: string) {
    forall k :: 0 <= k < |s| ==> s[k] != ','
  }

  /** Cutting a text at every comma. */
  function Split(s: string): (parts: seq<string>)
    ensures parts != []
  {
    if s == "" then [""]
    else
      var before := Split(s[..|s| - 1]);
      var c := s[|s| - 1];
      if c == ',' then before + [""]
      else before[..|before| - 1] + [before[|before| - 1] + [c]]
  }

  /** The parts of a text that is longer by one character. */
  function Extended(parts: seq<string>, c: char): seq<string>
    requires parts != []
  {
    if c == ',' then parts + [""] else parts[..|parts| - 1] + [parts[|parts| - 1] + [c]]
  }

  lemma SplitStep(s: string)
    requires s != ""
    ensures Split(s) == Extended(Split(s[..|s| - 1]), s[|s| - 1])
  {
  }

  lemma {:induction false} SplitLast(s: string, t: string)
    requires CommaFree(t)
    ensures Split(s + "," + t) == Split(s) + [t]
    decreases |t|
  {
    hide Split;
    var u := s + "," + t;
    SplitStep(u);
    if t == "" {
      assert u[..|u| - 1] == s;
    } else {
      var init, c := t[..|t| - 1], t[|t| - 1];
      SplitLast(s, init);
      LastOfSum(s + ",", t);
      ExtendLast(Split(s), init, c);
    }
  }

  lemma LastOfSum(s: string, t: string)
    requires t != ""
    ensures s + t != "" && (s + t)[..|s + t| - 1] == s + t[..|t| - 1] && (s + t)[|s + t| - 1] == t[|t| - 1]
    ensures t == t[..|t| - 1] + [t[|t| - 1]]
  {
  }

  lemma ExtendLast(parts: seq<string>, last: string, c: char)
    requires c != ','
    ensures Extended(parts + [last], c) == parts + [last + [c]]
  {
  }

  lemma {:induction false} SplitCommaFree(t: string)
    requires CommaFree(t)
    ensures Split(t) == [t]
    decreases |t|
  {
    if t != "" {
      SplitCommaFree(t[..|t| - 1]);
      SplitStep(t);
      LastOfSum("", t);
      ExtendLast([], t[..|t| - 1], t[|t| - 1]);
      hide Split;
    }
  }

  lemma JoinLast(ss: seq<string>, separator: string)
    requires |ss| > 1
    ensures Join(ss, separator) == Join(ss[..|ss| - 1], separator) + separator + ss[|ss| - 1]
  {
  }

  /** Splitting recovers the exact list of comma-free IDs that was joined... */
  lemma {:induction false} SplitUndoesJoin(ids: seq<string>)
    requires ids != [] && forall k :: 0 <= k < |ids| ==> CommaFree(ids[k])
    ensures Split(Join(ids, ",")) == ids
    decreases |ids|
  {
    var n := |ids| - 1;
    if n == 0 {
      SplitCommaFree(ids[0]);
    } else {
      hide Split, Join, CommaFree;
      JoinLast(ids, ",");
      SplitUndoesJoin(ids[..n]);
      SplitLast(Join(ids[..n], ","), ids[n]);
      assert ids == ids[..n] + [ids[n]];
    }
  }

  lemma JoinGrowsAtTheEnd(parts: seq<string>, last: string, c: char)
    ensures Join(parts + [last + [c]], ",") == Join(parts + [last], ",") + [c]
  {
    var n := |parts|;
    assert (parts + [last])[..n] == parts && (parts + [last + [c]])[..n] == parts;
    if n > 0 {
      var head := Join(parts, ",") + ",";
      assert head + (last + [c]) == head + last + [c];
    }
  }

  lemma JoinGrowsByBlank(parts: seq<string>)
    requires parts != []
    ensures Join(parts + [""], ",") == Join(parts, ",") + ","
  {
    assert (parts + [""])[..|parts|] == parts;
    assert Join(parts, ",") + "," + "" == Join(parts, ",") + ",";
  }

  /** ... and joining recovers any text that was split: the two are inverse. */
  lemma {:induction false} JoinUndoesSplit(s: string)
    ensures Join(Split(s), ",") == s
    decreases |s|
  {
    if s != "" {
      hide Join, Split;
      var init, c := s[..|s| - 1], s[|s| - 1];
      SplitStep(s);
      JoinUndoesSplit(init);
      JoinStep(Split(init), c);
      assert s == init + [c];
    }
  }

  lemma JoinStep(parts: seq<string>, c: char)
    requires parts != []
    ensures Join(Extended(parts, c), ",") == Join(parts, ",") + [c]
  {
    hide Join;
    var n := |parts| - 1;
    if c == ',' {
      JoinGrowsByBlank(parts);
    } else {
      JoinGrowsAtTheEnd(parts[..n], parts[n], c);
      assert parts[..n] + [parts[n]] == parts;
    }
  }

  lemma {:induction false} SplitPartsAreCommaFree(s: string)
    ensures forall k :: 0 <= k < |Split(s)| ==> CommaFree(Split(s)[k])
    decreases |s|
  {
    if s != "" {
      SplitPartsAreCommaFree(s[..|s| - 1]);
    }
  }

  /** Cutting and joining are inverse bijections between texts and non-empty lists of comma-free parts. */
  lemma SplitIffJoin(ids: seq<string>, text: string)
    ensures Split(text) == ids <==>
              ids != [] && (forall k :: 0 <= k < |ids| ==> CommaFree(ids[k])) && Join(ids, ",") == text
  {
    if Split(text) == ids {
      SplitPartsAreCommaFree(text);
      JoinUndoesSplit(text);
    } else if ids != [] && (forall k :: 0 <= k < |ids| ==> CommaFree(ids[k])) {
      SplitUndoesJoin(ids);
    }
    hide Split, Join;
  }

  /** Two non-empty lists of comma-free IDs that join to the same text are the same list. */
  lemma JoinIsInjective(a: seq<string>, b: seq<string>)
    requires a != [] && forall k :: 0 <= k < |a| ==> CommaFree(a[k])
    requires b != [] && forall k :: 0 <= k < |b| ==> CommaFree(b[k])
    ensures Join(a, ",") == Join(b, ",") <==> a == b
  {
    SplitUndoesJoin(a);
    SplitUndoesJoin(b);
  }

  /** The empty list is the one exception: it joins to the same text as one empty ID. */
  lemma EmptyJoinsLikeBlank()
    ensures Join([], ",") == Join([""], ",") == ""
  {
  }

  /** Every joined string can be read off the result. */
  lemma {:induction false} JoinMentions(ss: seq<string>, separator: string, k: nat) returns (at: nat)
    requires k < |ss|
    ensures at + |ss[k]| <= |Join(ss, separator)| && Join(ss, separator)[at..at + |ss[k]|] == ss[k]
    decreases |ss|
  {
    var n := |ss| - 1;
    var r := Join(ss, separator);
    if n == 0 {
      at := 0;
    } else if k == n {
      at := |r| - |ss[n]|;
    } else {
      at := JoinMentions(ss[..n], separator, k);
      assert r[at..at + |ss[k]|] == Join(ss[..n], separator)[at..at + |ss[k]|];
    }
  }
}
