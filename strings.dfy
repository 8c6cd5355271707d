/** The .NET string operations the formatters use, over `seq<char>`. */
module Strings {

  predicate EndsWith(s: string, suffix: string) {
    |suffix| <= |s| && s[|s| - |suffix|..] == suffix
  }

  /** Index of the first `c` in `s`, or `|s|` when there is none. */
  function IndexOf(s: string, c: char): (i: nat)
    ensures i <= |s|
    ensures i < |s| ==> s[i] == c
    ensures forall k :: 0 <= k < i ==> s[k] != c
  {
    if |s| == 0 then 0
    else if s[0] == c then 0
    else 1 + IndexOf(s[1..], c)
  }

  /** The position of the first `c` is the one position holding `c` with no `c` before it. */
  lemma IndexOfFirst(s: string, c: char, i: nat)
    requires i < |s| && s[i] == c && c !in s[..i]
    ensures IndexOf(s, c) == i
  {
    assert forall k :: 0 <= k < i ==> s[k] == s[..i][k];
  }

  /** `string.Join(sep, items)` */
  function Join(sep: string, items: seq<string>): (r: string)
  {
    if |items| == 0 then ""
    else if |items| == 1 then items[0]
    else items[0] + sep + Join(sep, items[1..])
  }

  lemma {:induction false} JoinSnoc(sep: string, items: seq<string>, last: string)
    requires |items| >= 1
    ensures Join(sep, items + [last]) == Join(sep, items) + sep + last
    decreases |items|
  {
    if |items| == 1 {
      assert (items + [last])[1..] == [last];
    } else {
      assert (items + [last])[1..] == items[1..] + [last];
      JoinSnoc(sep, items[1..], last);
    }
  }

  /** Joining strings that avoid `c` with a separator that avoids `c` yields a string that avoids `c`. */
  lemma {:induction false} JoinAvoids(sep: string, items: seq<string>, c: char)
    requires c !in sep
    requires forall k :: 0 <= k < |items| ==> c !in items[k]
    ensures c !in Join(sep, items)
    decreases |items|
  {
    if |items| > 1 {
      JoinAvoids(sep, items[1..], c);
    }
  }

  /**
   * `text.Split(" ", count)`: at most `count` parts, split at the first
   * `count - 1` spaces, the last part holding the rest of the text.
   */
  function Split(text: string, count: nat): (parts: seq<string>)
    ensures count == 0 ==> parts == []
    ensures count >= 1 ==> 1 <= |parts| <= count && Join(" ", parts) == text
    ensures forall k :: 0 <= k < |parts| - 1 ==> ' ' !in parts[k]
    ensures 0 < |parts| < count ==> ' ' !in parts[|parts| - 1]
    decreases count
  {
    if count == 0 then []
    else
      var i := IndexOf(text, ' ');
      if count == 1 || i == |text| then [text]
      else
        var rest := Split(text[i + 1..], count - 1);
        assert text == text[..i] + " " + text[i + 1..];
        assert ([text[..i]] + rest)[1..] == rest;
        [text[..i]] + rest
  }

  /** `s.TrimEnd(c)`: removes every trailing `c`. */
  function TrimEnd(s: string, c: char): (r: string)
    ensures |r| <= |s| && r == s[..|r|]
    ensures |r| == 0 || r[|r| - 1] != c
    ensures forall k :: |r| <= k < |s| ==> s[k] == c
    decreases |s|
  {
    if |s| > 0 && s[|s| - 1] == c then TrimEnd(s[..|s| - 1], c) else s
  }

  /** The three properties in TrimEnd's contract determine its result. */
  lemma TrimEndUnique(s: string, c: char, t: string)
    requires |t| <= |s| && t == s[..|t|]
    requires |t| == 0 || t[|t| - 1] != c
    requires forall k :: |t| <= k < |s| ==> s[k] == c
    ensures t == TrimEnd(s, c)
  {
    var r := TrimEnd(s, c);
    if |t| < |r| {
      assert false;
    } else if |r| < |t| {
      assert false;
    }
  }
}
