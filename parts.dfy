/**
 * The request body (`getEntity`). With no file entry it is a URL-encoded form
 * of `ParamsList`; otherwise it is a multipart body, given here as the
 * sequence of `addPart` calls made on the multipart writer: one plain field per
 * URL-encoded field, then one file part per file entry whose stream is
 * present, the part at iteration index `size - 1` flagged as the last.
 */
module Parts {
  import opened Wrappers
  import opened Entries
  import opened Pairs

  /** One plain multipart field per form field, in order. */
  function StringParts(pairs: seq<NameValuePair>): (r: seq<Part>)
    ensures |r| == |pairs|
  {
    if pairs == [] then []
    else StringParts(pairs[..|pairs| - 1]) + [StringPart(pairs[|pairs| - 1].name, pairs[|pairs| - 1].value)]
  }

  /** The i-th field of the multipart body is the i-th form field. */
  lemma {:induction false} StringPartsAt(pairs: seq<NameValuePair>, i: int)
    requires 0 <= i < |pairs|
    ensures StringParts(pairs)[i] == StringPart(pairs[i].name, pairs[i].value)
    decreases |pairs|
  {
    if i < |pairs| - 1 {
      StringPartsAt(pairs[..|pairs| - 1], i);
    }
  }

  /**
   * The part for the file entry at iteration index `index`: none when its
   * stream is null, the content-type form when it has a content type, the
   * plain form otherwise.
   */
  function FilePartAt(entry: FileEntry, index: int, lastIndex: int): (r: seq<Part>)
    ensures |r| == if entry.1.inputStream.None? then 0 else 1
    ensures forall p :: p in r ==>
              && !p.StringPart?
              && p.name == entry.0
              && p.stream == entry.1.inputStream.value
              && (p.TypedFilePart? <==> entry.1.contentType.Some?)
              && (p.isLast <==> index == lastIndex)
  {
    var file := entry.1;
    if file.inputStream.None? then []
    else if file.contentType.Some? then
      [TypedFilePart(entry.0, file.GetFileName(), file.inputStream.value, file.contentType.value, index == lastIndex)]
    else
      [FilePart(entry.0, file.GetFileName(), file.inputStream.value, index == lastIndex)]
  }

  /** The file loop: entries numbered by their iteration index. */
  function FileParts(files: seq<FileEntry>, lastIndex: int): (r: seq<Part>)
    ensures |r| <= |files|
    ensures forall p :: p in r ==> !p.StringPart?
  {
    if files == [] then []
    else FileParts(files[..|files| - 1], lastIndex) + FilePartAt(files[|files| - 1], |files| - 1, lastIndex)
  }

  /** All `addPart` calls of the multipart path, in order. */
  function PartPlan(scalars: seq<ScalarEntry>, arrays: seq<ArrayEntry>, files: seq<FileEntry>): (r: seq<Part>)
    ensures |scalars| + TotalLength(arrays) <= |r| <= |scalars| + TotalLength(arrays) + |files|
  {
    StringParts(ParamsList(scalars, arrays)) + FileParts(files, |files| - 1)
  }

  /** The body `getEntity` builds from the entries. */
  function EntityOf(scalars: seq<ScalarEntry>, arrays: seq<ArrayEntry>, files: seq<FileEntry>): (r: Entity)
    ensures r.MultipartForm? <==> |files| > 0
    ensures r.UrlEncodedForm? ==> r.pairs == ParamsList(scalars, arrays)
  {
    if |files| > 0 then MultipartForm(PartPlan(scalars, arrays, files))
    else UrlEncodedForm(ParamsList(scalars, arrays))
  }

  /** Every file entry has a stream, as every `put` guarantees. */
  predicate StreamsPresent(files: seq<FileEntry>) {
    forall i :: 0 <= i < |files| ==> files[i].1.inputStream.Some?
  }

  lemma {:induction false} StringPartsAppend(ps: seq<NameValuePair>, qs: seq<NameValuePair>)
    ensures StringParts(ps + qs) == StringParts(ps) + StringParts(qs)
  {
    assert |StringParts(ps + qs)| == |StringParts(ps) + StringParts(qs)|;
    forall i | 0 <= i < |ps + qs|
      ensures StringParts(ps + qs)[i] == (StringParts(ps) + StringParts(qs))[i]
    {
      StringPartsAt(ps + qs, i);
      if i >= |ps| {
        assert (ps + qs)[i] == qs[i - |ps|];
        StringPartsAt(qs, i - |ps|);
      } else {
        StringPartsAt(ps, i);
      }
    }
  }

  /**
   * With every stream present, the file loop yields exactly one part per file
   * entry, in iteration order, the i-th made from the i-th entry.
   */
  lemma {:induction false} FilePartsOnePerEntry(files: seq<FileEntry>, lastIndex: int)
    requires StreamsPresent(files)
    ensures |FileParts(files, lastIndex)| == |files|
    ensures forall i :: 0 <= i < |files| ==> [FileParts(files, lastIndex)[i]] == FilePartAt(files[i], i, lastIndex)
  {
    if files != [] {
      var init := files[..|files| - 1];
      FilePartsOnePerEntry(init, lastIndex);
    }
  }

  /**
   * What the multipart writer is told for file entry i: its name, its file
   * name or the sentinel, its stream, its content type exactly when it has one,
   * and `isLast` exactly when i is the last index.
   */
  lemma FilePartShape(files: seq<FileEntry>, lastIndex: int, i: int)
    requires StreamsPresent(files)
    requires 0 <= i < |files|
    ensures |FileParts(files, lastIndex)| == |files|
    ensures var p, w := FileParts(files, lastIndex)[i], files[i].1;
            && !p.StringPart?
            && p.name == files[i].0
            && p.fileName == (if w.fileName.Some? then w.fileName.value else NoFileName)
            && p.stream == w.inputStream.value
            && (p.TypedFilePart? <==> w.contentType.Some?)
            && (p.TypedFilePart? ==> p.contentType == w.contentType.value)
            && (p.isLast <==> i == lastIndex)
  {
    FilePartsOnePerEntry(files, lastIndex);
    assert [FileParts(files, lastIndex)[i]] == FilePartAt(files[i], i, lastIndex);
  }

  /**
   * On the multipart path, with every stream present, there is one field per
   * URL-encoded field and one part per file entry, and exactly one part, the
   * very last call, tells the writer to close the body.
   */
  lemma MultipartLastFlag(scalars: seq<ScalarEntry>, arrays: seq<ArrayEntry>, files: seq<FileEntry>)
    requires |files| > 0
    requires StreamsPresent(files)
    ensures |PartPlan(scalars, arrays, files)| == |scalars| + TotalLength(arrays) + |files|
    ensures forall i :: 0 <= i < |PartPlan(scalars, arrays, files)| ==>
              (IsFinalPart(PartPlan(scalars, arrays, files)[i]) <==> i == |PartPlan(scalars, arrays, files)| - 1)
  {
    var fields := StringParts(ParamsList(scalars, arrays));
    var plan := PartPlan(scalars, arrays, files);
    FilePartsOnePerEntry(files, |files| - 1);
    forall i | 0 <= i < |plan|
      ensures IsFinalPart(plan[i]) <==> i == |plan| - 1
    {
      if i >= |fields| {
        FilePartShape(files, |files| - 1, i - |fields|);
      } else {
        StringPartsAt(ParamsList(scalars, arrays), i);
      }
    }
  }

  /** The multipart fields are the URL-encoded fields, in the same order. */
  lemma MultipartFieldsArePairs(scalars: seq<ScalarEntry>, arrays: seq<ArrayEntry>, files: seq<FileEntry>, i: int)
    requires 0 <= i < |ParamsList(scalars, arrays)|
    ensures PartPlan(scalars, arrays, files)[i] ==
            StringPart(ParamsList(scalars, arrays)[i].name, ParamsList(scalars, arrays)[i].value)
  {
    StringPartsAt(ParamsList(scalars, arrays), i);
  }

  /** Once no entry carries `name`, no part of the multipart body does either. */
  lemma {:induction false} PartPlanWithoutName(scalars: seq<ScalarEntry>, arrays: seq<ArrayEntry>, files: seq<FileEntry>, name: string)
    requires forall e :: e in scalars ==> e.0 != name
    requires forall e :: e in arrays ==> e.0 != name
    requires forall e :: e in files ==> e.0 != name
    ensures forall p :: p in PartPlan(scalars, arrays, files) ==> p.name != name
  {
    var fields := StringParts(ParamsList(scalars, arrays));
    ParamsListWithoutName(scalars, arrays, name);
    FilePartsWithoutName(files, |files| - 1, name);
    forall p | p in PartPlan(scalars, arrays, files)
      ensures p.name != name
    {
      if p in fields {
        var i :| 0 <= i < |fields| && fields[i] == p;
        StringPartsAt(ParamsList(scalars, arrays), i);
        assert ParamsList(scalars, arrays)[i] in ParamsList(scalars, arrays);
      }
    }
  }

  lemma {:induction false} FilePartsWithoutName(files: seq<FileEntry>, lastIndex: int, name: string)
    requires forall e :: e in files ==> e.0 != name
    ensures forall p :: p in FileParts(files, lastIndex) ==> p.name != name
  {
    if files != [] {
      var init := files[..|files| - 1];
      assert forall e :: e in init ==> e in files;
      FilePartsWithoutName(init, lastIndex, name);
      assert files[|files| - 1] in files;
    }
  }
}
