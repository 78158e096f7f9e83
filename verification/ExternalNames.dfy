/**
 Composite external names: a pin is remembered as `channel:timestamp` and a channel membership as
 `channel/user`. They carry the identity of a resource from Create to Observe and Delete.
 */
module ExternalNames {
  import opened Outcomes

  /** Cuts at the first separator. */
  function Cut(s: string, separator: char): Option<(string, string)> {
    if s == "" then None
    else if s[0] == separator then Some(("", s[1..]))
    else
      match Cut(s[1..], separator)
      case None => None
      case Some((before, after)) => Some(([s[0]] + before, after))
  }

  function Glue(before: string, separator: char, after: string): string {
    before + [separator] + after
  }

  function FormatPin(channel: string, ts: string): string {
    Glue(channel, ':', ts)
  }

  /** Two empty parts stand for a name without a separator. */
  function ParsePin(name: string): (string, string) {
    Cut(name, ':').GetOr(("", ""))
  }

  function FormatMember(channel: string, user: string): string {
    Glue(channel, '/', user)
  }

  /** The scan for the first slash. */
  method ParseMember(name: string) returns (channel: string, user: string, ok: bool)
    ensures Cut(name, '/') == if ok then Some((channel, user)) else None
  {
    for i := 0 to |name|
      invariant forall j :: 0 <= j < i ==> name[j] != '/'
    {
      if name[i] == '/' {
        assert name == Glue(name[..i], '/', name[i + 1..]);
        CutIff(name, '/', name[..i], name[i + 1..]);
        return name[..i], name[i + 1..], true;
      }
    }
    NoCutIff(name, '/');
    return "", "", false;
  }

  /** A name is cut into two parts exactly when it is those parts around the separator and the first
      part does not contain it. */
  lemma {:induction false} CutIff(s: string, separator: char, before: string, after: string)
    ensures Cut(s, separator) == Some((before, after)) <==> s == Glue(before, separator, after) && separator !in before
    decreases |s|
  {
    if s != "" {
      if s[0] == separator {
        if s == Glue(before, separator, after) && before != "" {
          assert before[0] == s[0];
        }
        assert before == "" ==> Glue(before, separator, after)[1..] == after;
        assert s == Glue("", separator, s[1..]);
      } else {
        if before != "" && before[0] == s[0] {
          CutIff(s[1..], separator, before[1..], after);
          assert before == [before[0]] + before[1..];
          assert Glue(before, separator, after) == [before[0]] + Glue(before[1..], separator, after);
          assert s == [s[0]] + s[1..];
        } else {
          assert before == "" ==> Glue(before, separator, after)[0] == separator;
          assert before != "" ==> Glue(before, separator, after)[0] == before[0];
        }
      }
    }
  }

  lemma {:induction false} NoCutIff(s: string, separator: char)
    ensures Cut(s, separator).None? <==> separator !in s
    decreases |s|
  {
    if s != "" {
      NoCutIff(s[1..], separator);
      assert s == [s[0]] + s[1..];
    }
  }

  /** Parsing undoes formatting exactly when the channel holds no separator. */
  lemma PinRoundTripIff(channel: string, ts: string)
    ensures ParsePin(FormatPin(channel, ts)) == (channel, ts) <==> ':' !in channel
  {
    var name := FormatPin(channel, ts);
    CutIff(name, ':', channel, ts);
    NoCutIff(name, ':');
    assert name[|channel|] == ':';
  }

  lemma MemberRoundTripIff(channel: string, user: string)
    ensures Cut(FormatMember(channel, user), '/') == Some((channel, user)) <==> '/' !in channel
  {
    CutIff(FormatMember(channel, user), '/', channel, user);
  }

  /** Formatting undoes parsing exactly when there was a separator to cut at. */
  lemma FormatUndoesParseIff(name: string)
    ensures FormatPin(ParsePin(name).0, ParsePin(name).1) == name <==> ':' in name
  {
    NoCutIff(name, ':');
    if ':' in name {
      var (before, after) := ParsePin(name);
      CutIff(name, ':', before, after);
    } else {
      assert FormatPin("", "")[0] == ':';
    }
  }
}
