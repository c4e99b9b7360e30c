/**
 * The debug rendering of the bag (`toString`). The builder functions follow
 * the three loops step by step: a `&` goes in before a new entry only when
 * the text built so far is non-empty, and the values of one array list are
 * joined by `&` among themselves. The reference definition `Join` says what
 * that amounts to when no array list is empty; `DebugStringEmptyList` shows
 * what an empty list adds.
 */
module DebugText {
  import opened Entries
  import opened Pairs

  /** One `name=value` piece. */
  function Piece(name: string, value: string): (s: string)
    ensures |s| > 0
  {
    name + "=" + value
  }

  /** The text with the separator a new entry gets when something is already there. */
  function Separated(text: string): string {
    if |text| > 0 then text + "&" else text
  }

  /** The scalar loop: each entry as `key=value`. */
  function AppendScalars(text: string, scalars: seq<ScalarEntry>): (r: string)
    ensures text <= r
    ensures |r| == 0 <==> |text| == 0 && scalars == []
  {
    if scalars == [] then text
    else
      var last := scalars[|scalars| - 1];
      Separated(AppendScalars(text, scalars[..|scalars| - 1])) + Piece(last.0, last.1)
  }

  /** The file loop: each entry as `key=FILE`. */
  function AppendFiles(text: string, files: seq<FileEntry>): (r: string)
    ensures text <= r
    ensures |r| == 0 <==> |text| == 0 && files == []
  {
    if files == [] then text
    else Separated(AppendFiles(text, files[..|files| - 1])) + Piece(files[|files| - 1].0, "FILE")
  }

  /** The inner loop over one array list: a `&` before every value but the first. */
  function AppendList(text: string, name: string, values: seq<string>): (r: string)
    ensures text <= r
    ensures |r| == 0 <==> |text| == 0 && values == []
  {
    if values == [] then text
    else
      var before := AppendList(text, name, values[..|values| - 1]);
      (if |values| - 1 != 0 then before + "&" else before) + Piece(name, values[|values| - 1])
  }

  /** The array loop: a separator, then the list's values. */
  function AppendArrays(text: string, arrays: seq<ArrayEntry>): (r: string)
    ensures text <= r
    ensures |r| == 0 <==> |text| == 0 && TotalLength(arrays) == 0
  {
    if arrays == [] then text
    else
      var last := arrays[|arrays| - 1];
      AppendList(Separated(AppendArrays(text, arrays[..|arrays| - 1])), last.0, last.1)
  }

  /**
   * The whole rendering: scalars, then files, then arrays. It is empty
   * exactly when there is no scalar entry, no file entry and no list value.
   */
  function DebugString(scalars: seq<ScalarEntry>, files: seq<FileEntry>, arrays: seq<ArrayEntry>): (r: string)
    ensures |r| == 0 <==> scalars == [] && files == [] && TotalLength(arrays) == 0
  {
    AppendArrays(AppendFiles(AppendScalars("", scalars), files), arrays)
  }

  // ---------------------------------------------------------------------------
  // Reference definition: the pieces joined by `&`.

  /** The pieces, separated by single `&`s. */
  function Join(pieces: seq<string>): string {
    if |pieces| == 0 then ""
    else if |pieces| == 1 then pieces[0]
    else Join(pieces[..|pieces| - 1]) + "&" + pieces[|pieces| - 1]
  }

  /** One piece per field. */
  function PiecesOf(pairs: seq<NameValuePair>): (r: seq<string>)
    ensures |r| == |pairs|
    ensures forall i :: 0 <= i < |pairs| ==> r[i] == Piece(pairs[i].name, pairs[i].value)
  {
    if pairs == [] then []
    else PiecesOf(pairs[..|pairs| - 1]) + [Piece(pairs[|pairs| - 1].name, pairs[|pairs| - 1].value)]
  }

  /** One `key=FILE` piece per file entry. */
  function FilePieces(files: seq<FileEntry>): (r: seq<string>)
    ensures |r| == |files|
    ensures forall i :: 0 <= i < |files| ==> r[i] == Piece(files[i].0, "FILE")
  {
    if files == [] then []
    else FilePieces(files[..|files| - 1]) + [Piece(files[|files| - 1].0, "FILE")]
  }

  /** Every piece of the rendering, in the order the three loops emit them. */
  function AllPieces(scalars: seq<ScalarEntry>, files: seq<FileEntry>, arrays: seq<ArrayEntry>): seq<string> {
    PiecesOf(ScalarPairs(scalars)) + FilePieces(files) + PiecesOf(ExpandArrays(arrays))
  }

  /** No array entry holds an empty list. */
  predicate NoEmptyLists(arrays: seq<ArrayEntry>) {
    forall i :: 0 <= i < |arrays| ==> |arrays[i].1| > 0
  }

  // ---------------------------------------------------------------------------
  // Proof that the builder joins the pieces.

  /** Appending pieces one at a time, each after a separator when needed. */
  ghost function JoinOnto(text: string, pieces: seq<string>): string {
    if pieces == [] then text
    else Separated(JoinOnto(text, pieces[..|pieces| - 1])) + pieces[|pieces| - 1]
  }

  lemma {:induction false} JoinOntoAppend(text: string, ps: seq<string>, qs: seq<string>)
    ensures JoinOnto(text, ps + qs) == JoinOnto(JoinOnto(text, ps), qs)
    decreases |qs|
  {
    if qs == [] {
      assert ps + qs == ps;
    } else {
      assert (ps + qs)[..|ps + qs| - 1] == ps + qs[..|qs| - 1];
      JoinOntoAppend(text, ps, qs[..|qs| - 1]);
    }
  }

  lemma {:induction false} PiecesOfAppend(ps: seq<NameValuePair>, qs: seq<NameValuePair>)
    ensures PiecesOf(ps + qs) == PiecesOf(ps) + PiecesOf(qs)
  {
    assert |PiecesOf(ps + qs)| == |PiecesOf(ps) + PiecesOf(qs)|;
    forall i | 0 <= i < |ps + qs|
      ensures PiecesOf(ps + qs)[i] == (PiecesOf(ps) + PiecesOf(qs))[i]
    {
      if i >= |ps| {
        assert (ps + qs)[i] == qs[i - |ps|];
      }
    }
  }

  lemma {:induction false} AppendScalarsJoins(text: string, scalars: seq<ScalarEntry>)
    ensures AppendScalars(text, scalars) == JoinOnto(text, PiecesOf(ScalarPairs(scalars)))
  {
    if scalars != [] {
      var init, last := scalars[..|scalars| - 1], scalars[|scalars| - 1];
      AppendScalarsJoins(text, init);
      PiecesOfAppend(ScalarPairs(init), [NameValuePair(last.0, last.1)]);
      var ps := PiecesOf(ScalarPairs(scalars));
      assert ps[..|ps| - 1] == PiecesOf(ScalarPairs(init));
    }
  }

  lemma {:induction false} AppendFilesJoins(text: string, files: seq<FileEntry>)
    ensures AppendFiles(text, files) == JoinOnto(text, FilePieces(files))
  {
    if files != [] {
      AppendFilesJoins(text, files[..|files| - 1]);
      var ps := FilePieces(files);
      assert ps[..|ps| - 1] == FilePieces(files[..|files| - 1]);
    }
  }

  /** The values of a non-empty list, appended after a separator, are its pieces joined onto the text. */
  lemma {:induction false} AppendListJoins(text: string, name: string, values: seq<string>)
    requires |values| > 0
    ensures AppendList(Separated(text), name, values) == JoinOnto(text, PiecesOf(ListPairs(name, values)))
  {
    var init := values[..|values| - 1];
    var ps := PiecesOf(ListPairs(name, values));
    PiecesOfAppend(ListPairs(name, init), [NameValuePair(name, values[|values| - 1])]);
    assert ps[..|ps| - 1] == PiecesOf(ListPairs(name, init));
    if |init| == 0 {
      assert ps[..|ps| - 1] == [];
    } else {
      AppendListJoins(text, name, init);
      var qs := PiecesOf(ListPairs(name, init));
      assert |JoinOnto(text, qs)| > 0 by {
        assert qs[..|qs| - 1] + [qs[|qs| - 1]] == qs;
      }
    }
  }

  lemma {:induction false} AppendArraysJoins(text: string, arrays: seq<ArrayEntry>)
    requires NoEmptyLists(arrays)
    ensures AppendArrays(text, arrays) == JoinOnto(text, PiecesOf(ExpandArrays(arrays)))
  {
    if arrays != [] {
      var init, last := arrays[..|arrays| - 1], arrays[|arrays| - 1];
      assert |last.1| > 0;
      AppendArraysJoins(text, init);
      AppendListJoins(AppendArrays(text, init), last.0, last.1);
      PiecesOfAppend(ExpandArrays(init), ListPairs(last.0, last.1));
      JoinOntoAppend(text, PiecesOf(ExpandArrays(init)), PiecesOf(ListPairs(last.0, last.1)));
    }
  }

  /** Joining onto the empty text is `Join`, as long as no piece is empty. */
  lemma {:induction false} JoinOntoEmpty(pieces: seq<string>)
    requires forall i :: 0 <= i < |pieces| ==> |pieces[i]| > 0
    ensures JoinOnto("", pieces) == Join(pieces)
  {
    if |pieces| > 1 {
      var init := pieces[..|pieces| - 1];
      JoinOntoEmpty(init);
      assert |Join(init)| > 0 by {
        assert |init[|init| - 1]| > 0;
        if |init| > 1 {
          assert init[..|init| - 1] + [init[|init| - 1]] == init;
        }
      }
    } else if |pieces| == 1 {
      assert pieces[..0] == [];
    }
  }

  /**
   * When no array list is empty, the debug string is every `name=value`
   * piece (scalars, then `name=FILE` per file, then each array value)
   * separated by single `&`s.
   */
  lemma DebugStringJoinsPieces(scalars: seq<ScalarEntry>, files: seq<FileEntry>, arrays: seq<ArrayEntry>)
    requires NoEmptyLists(arrays)
    ensures DebugString(scalars, files, arrays) == Join(AllPieces(scalars, files, arrays))
  {
    DebugStringJoinsOnto(scalars, files, arrays);
    AllPiecesNonEmpty(scalars, files, arrays);
    JoinOntoEmpty(AllPieces(scalars, files, arrays));
  }

  /** The three builders together append every piece onto the empty text. */
  lemma DebugStringJoinsOnto(scalars: seq<ScalarEntry>, files: seq<FileEntry>, arrays: seq<ArrayEntry>)
    requires NoEmptyLists(arrays)
    ensures DebugString(scalars, files, arrays) == JoinOnto("", AllPieces(scalars, files, arrays))
  {
    var sp, fp, ap := PiecesOf(ScalarPairs(scalars)), FilePieces(files), PiecesOf(ExpandArrays(arrays));
    var afterScalars := AppendScalars("", scalars);
    var afterFiles := AppendFiles(afterScalars, files);
    assert afterFiles == JoinOnto("", sp + fp) by {
      AppendScalarsJoins("", scalars);
      AppendFilesJoins(afterScalars, files);
      JoinOntoAppend("", sp, fp);
    }
    AppendArraysJoins(afterFiles, arrays);
    JoinOntoAppend("", sp + fp, ap);
  }

  lemma AllPiecesNonEmpty(scalars: seq<ScalarEntry>, files: seq<FileEntry>, arrays: seq<ArrayEntry>)
    ensures var pieces := AllPieces(scalars, files, arrays);
            forall i :: 0 <= i < |pieces| ==> |pieces[i]| > 0
  {
    var sp, fp, ap := PiecesOf(ScalarPairs(scalars)), FilePieces(files), PiecesOf(ExpandArrays(arrays));
    var pieces := sp + fp + ap;
    forall i | 0 <= i < |pieces|
      ensures |pieces[i]| > 0
    {
      if i < |sp| {
        assert pieces[i] == sp[i];
      } else if i < |sp| + |fp| {
        assert pieces[i] == fp[i - |sp|];
      } else {
        assert pieces[i] == ap[i - |sp| - |fp|];
      }
    }
  }

  /** A bag with no entries renders as the empty string. */
  lemma DebugStringOfEmpty()
    ensures DebugString([], [], []) == ""
  {
  }

  /**
   * An empty array list adds nothing when the text is still empty, and a lone
   * `&` otherwise: the separator goes in before the list's values are known.
   */
  lemma DebugStringEmptyList(scalars: seq<ScalarEntry>, files: seq<FileEntry>, arrays: seq<ArrayEntry>, name: string)
    ensures DebugString(scalars, files, arrays + [(name, [])]) ==
            if DebugString(scalars, files, arrays) == "" then "" else DebugString(scalars, files, arrays) + "&"
  {
    assert (arrays + [(name, [])])[..|arrays|] == arrays;
  }

  /** The values of one array list come out in list order, each under the list's name. */
  lemma DebugStringOfTags()
    ensures DebugString([], [], [("tags", ["x", "y"])]) == "tags=x&tags=y"
  {
    var arrays := [("tags", ["x", "y"])];
    assert arrays[..0] == [];
    assert ["x", "y"][..1] == ["x"];
    assert ["x"][..0] == [];
  }
}
