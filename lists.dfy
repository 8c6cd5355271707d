/**
 * The list joiners of ContentLocalizationManager: FormatList, FormatListToOr and
 * their Portuguese counterparts FormatListCustom and FormatListToOrCustom.
 */
module Lists {
  import opened Strings

  /**
   * The shape shared by FormatList and FormatListCustom: "A <conj> B" for two
   * items, and "A, B, ..., <conj> Z" (serial comma) for three or more.
   */
  function ConjoinList(list: seq<string>, conj: string): (r: string)
    ensures |list| == 0 ==> r == ""
    ensures |list| == 1 ==> r == list[0]
    ensures |list| >= 2 ==> EndsWith(r, " " + conj + " " + list[|list| - 1])
  {
    if |list| == 0 then ""
    else if |list| == 1 then list[0]
    else
      var tail := " " + conj + " " + list[|list| - 1];
      if |list| == 2 then
        assert list[0] + " " + conj + " " + list[1] == list[0] + tail;
        list[0] + " " + conj + " " + list[1]
      else
        var head := Join(", ", list[..|list| - 1]);
        assert head + ", " + conj + " " + list[|list| - 1] == (head + ",") + tail;
        head + ", " + conj + " " + list[|list| - 1]
  }

  /** The shape shared by FormatListToOr and FormatListToOrCustom. */
  function DisjoinList(list: seq<string>, disj: string): (r: string)
    ensures |list| == 0 ==> r == ""
    ensures |list| == 1 ==> r == list[0]
    ensures |list| >= 2 ==> EndsWith(r, " " + disj + " " + list[|list| - 1])
  {
    if |list| == 0 then ""
    else if |list| == 1 then list[0]
    else
      var sep := " " + disj + " ";
      if |list| == 2 then
        assert list[0] + " " + disj + " " + list[1] == list[0] + (sep + list[1]);
        list[0] + " " + disj + " " + list[1]
      else
        JoinSnoc(sep, list[..|list| - 1], list[|list| - 1]);
        assert list[..|list| - 1] + [list[|list| - 1]] == list;
        Join(sep, list)
  }

  /** FormatList: "A and B", and the serial-comma list "A, B, and C" for three or more. */
  function FormatList(list: seq<string>): (r: string)
    ensures |list| <= 1 ==> r == (if |list| == 0 then "" else list[0])
    ensures |list| == 2 ==> r == list[0] + " and " + list[1]
    ensures |list| >= 3 ==> r == CommaSeries(list, "and")
  {
    if |list| >= 3 then ConjoinIsCommaSeries(list, "and"); ConjoinList(list, "and")
    else ConjoinList(list, "and")
  }

  /** FormatListCustom: as FormatList with the Portuguese "e". */
  function FormatListCustom(list: seq<string>): (r: string)
    ensures |list| <= 1 ==> r == (if |list| == 0 then "" else list[0])
    ensures |list| == 2 ==> r == list[0] + " e " + list[1]
    ensures |list| >= 3 ==> r == CommaSeries(list, "e")
  {
    if |list| >= 3 then ConjoinIsCommaSeries(list, "e"); ConjoinList(list, "e")
    else ConjoinList(list, "e")
  }

  /** FormatListToOr: the items joined by " or ", whatever their number. */
  function FormatListToOr(list: seq<string>): (r: string)
    ensures r == Join(" or ", list)
  {
    DisjoinIsJoin(list, "or");
    assert " " + "or" + " " == " or ";
    DisjoinList(list, "or")
  }

  /** FormatListToOrCustom: the items joined by " ou ", whatever their number. */
  function FormatListToOrCustom(list: seq<string>): (r: string)
    ensures r == Join(" ou ", list)
  {
    DisjoinIsJoin(list, "ou");
    assert " " + "ou" + " " == " ou ";
    DisjoinList(list, "ou")
  }

  /**
   * An independent reading of the serial-comma list: every item but the last two
   * is followed by ", ", and the last two are joined by ", <conj> ".
   */
  function CommaSeries(list: seq<string>, conj: string): (r: string)
    requires |list| >= 2
    decreases |list|
  {
    if |list| == 2 then list[0] + ", " + conj + " " + list[1]
    else list[0] + ", " + CommaSeries(list[1..], conj)
  }

  /** For three or more items the and-joiner is the serial-comma list. */
  lemma {:induction false} ConjoinIsCommaSeries(list: seq<string>, conj: string)
    requires |list| >= 3
    ensures ConjoinList(list, conj) == CommaSeries(list, conj)
  {
    ConjoinSeriesTail(list, conj);
  }

  lemma {:induction false} ConjoinSeriesTail(list: seq<string>, conj: string)
    requires |list| >= 2
    ensures Join(", ", list[..|list| - 1]) + ", " + conj + " " + list[|list| - 1] == CommaSeries(list, conj)
    decreases |list|
  {
    var n := |list|;
    if n > 2 {
      ConjoinSeriesTail(list[1..], conj);
      assert list[1..][..n - 2] == list[..n - 1][1..];
      assert list[1..][n - 2] == list[n - 1];
    }
  }

  /** The or-joiner is `string.Join(" <disj> ", list)` for every length, 0, 1 and 2 included. */
  lemma DisjoinIsJoin(list: seq<string>, disj: string)
    ensures DisjoinList(list, disj) == Join(" " + disj + " ", list)
  {
    if |list| == 2 {
      assert list[1..] == [list[1]];
    }
  }

  /**
   * Unlike the and-joiner, the or-joiner inserts no comma: items and word without
   * ',' give a list without ','.
   */
  lemma DisjoinHasNoComma(list: seq<string>, disj: string)
    requires ',' !in disj
    requires forall k :: 0 <= k < |list| ==> ',' !in list[k]
    ensures ',' !in DisjoinList(list, disj)
  {
    DisjoinIsJoin(list, disj);
    JoinAvoids(" " + disj + " ", list, ',');
  }

  /** The and-joiner of three or more items always contains the ", <conj> " before the last item. */
  lemma ConjoinHasSerialComma(list: seq<string>, conj: string)
    requires |list| >= 3
    ensures var r := ConjoinList(list, conj);
      var tail := ", " + conj + " " + list[|list| - 1];
      EndsWith(r, tail) && ',' in r
  {
    var r := ConjoinList(list, conj);
    var tail := ", " + conj + " " + list[|list| - 1];
    var head := Join(", ", list[..|list| - 1]);
    assert r == head + tail;
    assert r[|r| - |tail|..] == tail;
    assert r[|head|] == ',';
  }

  lemma AndListExamples()
    ensures FormatList([]) == ""
    ensures FormatList(["a"]) == "a"
    ensures FormatList(["a", "b"]) == "a and b"
    ensures FormatList(["a", "b", "c"]) == "a, b, and c"
  {
    assert ["a", "b", "c"][..2] == ["a", "b"];
    assert ["a", "b"][1..] == ["b"];
  }

  lemma CustomAndListExample()
    ensures FormatListCustom(["a", "b", "c"]) == "a, b, e c"
  {
    assert ["a", "b", "c"][..2] == ["a", "b"];
    assert ["a", "b"][1..] == ["b"];
  }

  lemma OrListExamples()
    ensures FormatListToOr(["a", "b", "c"]) == "a or b or c"
    ensures FormatListToOrCustom(["a", "b"]) == "a ou b"
  {
    assert ["a", "b", "c"][1..] == ["b", "c"];
    assert ["b", "c"][1..] == ["c"];
    assert " " + "or" + " " == " or ";
    assert Join(" or ", ["b", "c"]) == "b or c";
    assert Join(" or ", ["a", "b", "c"]) == "a or b or c";
  }
}
