/**
 * The parameter bag itself. The three multimaps are fields listing their
 * entries; the order of each sequence stands for the hash multimap's
 * iteration order, which the mutators never promise anything about: their
 * contracts speak of the SET of entries (`Scalars`, `Arrays`, `Files`).
 * A multimap holds a (key, value) pair at most once, hence `NoDuplicates`.
 */
module RequestParams {
  import opened Wrappers
  import opened Entries
  import opened Pairs
  import opened DebugText
  import opened Parts

  /** The exception of the key/value-list constructor. */
  datatype ParamsError = IllegalArgument(message: string)

  /** `String.valueOf`: an object's string form, or "null" for null. */
  function ValueOf(o: Option<string>): (s: string)
    ensures o.Some? ==> s == o.value
    ensures o.None? ==> s == "null"
  {
    if o.Some? then o.value else "null"
  }

  /** The pairs an even-length key/value list stands for, each item through `ValueOf`. */
  function KeyValuePairs(keysAndValues: seq<Option<string>>): (r: Result<seq<ScalarEntry>, ParamsError>)
    ensures r.Failure? <==> |keysAndValues| % 2 != 0
    ensures r.Success? ==>
              |r.value| == |keysAndValues| / 2 &&
              forall i :: 0 <= i < |r.value| ==>
                r.value[i] == (ValueOf(keysAndValues[2 * i]), ValueOf(keysAndValues[2 * i + 1]))
  {
    if |keysAndValues| % 2 != 0 then Failure(IllegalArgument("Supplied arguments must be even"))
    else Success(PairsFrom(keysAndValues))
  }

  function PairsFrom(keysAndValues: seq<Option<string>>): (r: seq<ScalarEntry>)
    requires |keysAndValues| % 2 == 0
    ensures |r| == |keysAndValues| / 2
    ensures forall i :: 0 <= i < |r| ==> r[i] == (ValueOf(keysAndValues[2 * i]), ValueOf(keysAndValues[2 * i + 1]))
  {
    if keysAndValues == [] then []
    else
      var n := |keysAndValues|;
      PairsFrom(keysAndValues[..n - 2]) + [(ValueOf(keysAndValues[n - 2]), ValueOf(keysAndValues[n - 1]))]
  }

  /** The arguments ("a", "1", "b", "2") stand for the pairs a=1 and b=2, in that order. */
  lemma KeyValuePairsExample()
    ensures KeyValuePairs([Some("a"), Some("1"), Some("b"), Some("2")]) == Success([("a", "1"), ("b", "2")])
  {
    var r := KeyValuePairs([Some("a"), Some("1"), Some("b"), Some("2")]);
    assert r.value[0] == ("a", "1") && r.value[1] == ("b", "2");
    assert |r.value| == 2;
    assert r.value == [("a", "1"), ("b", "2")];
  }

  class MultiRequestParams {
    var urlParams: seq<ScalarEntry>
    var fileParams: seq<FileEntry>
    var urlParamsWithArray: seq<ArrayEntry>

    /** Each multimap holds a pair at most once, and every file entry has a stream. */
    ghost predicate Valid()
      reads this
    {
      && NoDuplicates(urlParams)
      && NoDuplicates(fileParams)
      && NoDuplicates(urlParamsWithArray)
      && StreamsPresent(fileParams)
    }

    ghost function Scalars(): set<ScalarEntry>
      reads this
    {
      set e | e in urlParams
    }

    ghost function Arrays(): set<ArrayEntry>
      reads this
    {
      set e | e in urlParamsWithArray
    }

    ghost function Files(): set<FileEntry>
      reads this
    {
      set e | e in fileParams
    }

    /** An empty bag. */
    constructor ()
      ensures Valid()
      ensures urlParams == [] && fileParams == [] && urlParamsWithArray == []
    {
      urlParams, fileParams, urlParamsWithArray := [], [], [];
    }

    /** A bag holding one scalar pair, or nothing when key or value is null. */
    constructor Of(key: Option<string>, value: Option<string>)
      ensures Valid()
      ensures fileParams == [] && urlParamsWithArray == []
      ensures Scalars() == if key.Some? && value.Some? then {(key.value, value.value)} else {}
    {
      urlParams, fileParams, urlParamsWithArray := [], [], [];
      new;
      Put(key, value);
    }

    /** A bag holding the pairs of a string map whose key and value are both non-null. */
    constructor FromMap(source: map<Option<string>, Option<string>>)
      ensures Valid()
      ensures fileParams == [] && urlParamsWithArray == []
      ensures forall e :: e in urlParams <==> Some(e.0) in source && source[Some(e.0)] == Some(e.1)
    {
      urlParams, fileParams, urlParamsWithArray := [], [], [];
      new;
      var rest := source.Keys;
      while rest != {}
        invariant rest <= source.Keys
        invariant Valid()
        invariant fileParams == [] && urlParamsWithArray == []
        invariant forall e :: e in urlParams <==>
                    Some(e.0) in source.Keys - rest && source[Some(e.0)] == Some(e.1)
        decreases rest
      {
        var key :| key in rest;
        ghost var before := urlParams;
        Put(key, source[key]);
        rest := rest - {key};
        forall e: ScalarEntry | e in urlParams
          ensures Some(e.0) in source.Keys - rest && source[Some(e.0)] == Some(e.1)
        {
          assert e in Scalars();
          if e !in before {
            assert e == (key.value, source[key].value);
          }
        }
        forall e: ScalarEntry | Some(e.0) in source.Keys - rest && source[Some(e.0)] == Some(e.1)
          ensures e in urlParams
        {
          if Some(e.0) == key {
            assert e in Scalars();
          } else {
            assert e in before;
            assert e in Scalars();
          }
        }
      }
    }

    /**
     * The key/value-list constructor: fails on an odd count before storing
     * anything; otherwise puts each pair `ValueOf(a[i]), ValueOf(a[i+1])` in
     * order. Every item is null or a non-null string form, so `ValueOf` is
     * never null and no pair is skipped.
     */
    static method OfKeysAndValues(keysAndValues: seq<Option<string>>) returns (r: Result<MultiRequestParams, ParamsError>)
      ensures r.Failure? <==> |keysAndValues| % 2 != 0
      ensures r.Failure? ==> r.error == IllegalArgument("Supplied arguments must be even")
      ensures r.Success? ==>
                && fresh(r.value)
                && r.value.Valid()
                && r.value.fileParams == [] && r.value.urlParamsWithArray == []
                && r.value.Scalars() == set e | e in KeyValuePairs(keysAndValues).value
    {
      var len := |keysAndValues|;
      if len % 2 != 0 {
        return Failure(IllegalArgument("Supplied arguments must be even"));
      }
      var params := new MultiRequestParams();
      ghost var pairs := PairsFrom(keysAndValues);
      var i := 0;
      while i < len
        invariant 0 <= i <= len && i % 2 == 0
        invariant fresh(params)
        invariant params.Valid()
        invariant params.fileParams == [] && params.urlParamsWithArray == []
        invariant params.Scalars() == set e | e in pairs[..i / 2]
      {
        var key := ValueOf(keysAndValues[i]);
        var val := ValueOf(keysAndValues[i + 1]);
        assert pairs[i / 2] == (key, val);
        assert pairs[..(i + 2) / 2] == pairs[..i / 2] + [(key, val)];
        params.Put(Some(key), Some(val));
        i := i + 2;
      }
      assert pairs[..len / 2] == pairs;
      r := Success(params);
    }

    /** `put(key, value)`: adds the pair when both are non-null; the other multimaps are untouched. */
    method Put(key: Option<string>, value: Option<string>)
      requires Valid()
      modifies this
      ensures Valid()
      ensures Scalars() == if key.Some? && value.Some? then old(Scalars()) + {(key.value, value.value)} else old(Scalars())
      ensures key.None? || value.None? ==> urlParams == old(urlParams)
      ensures fileParams == old(fileParams) && urlParamsWithArray == old(urlParamsWithArray)
    {
      if key.Some? && value.Some? {
        var entry := (key.value, value.value);
        if entry !in urlParams {
          urlParams := urlParams + [entry];
        }
      }
    }

    /**
     * `put(key, values)`: adds the whole list as ONE entry when key and list are
     * non-null; an equal list under the same key is already there.
     */
    method PutArray(key: Option<string>, values: Option<seq<string>>)
      requires Valid()
      modifies this
      ensures Valid()
      ensures Arrays() == if key.Some? && values.Some? then old(Arrays()) + {(key.value, values.value)} else old(Arrays())
      ensures key.None? || values.None? ==> urlParamsWithArray == old(urlParamsWithArray)
      ensures urlParams == old(urlParams) && fileParams == old(fileParams)
    {
      if key.Some? && values.Some? {
        var entry := (key.value, values.value);
        if entry !in urlParamsWithArray {
          urlParamsWithArray := urlParamsWithArray + [entry];
        }
      }
    }

    /**
     * `put(key, stream, fileName, contentType)`: when key and stream are
     * non-null, adds exactly one entry, a new wrapper of the three arguments;
     * otherwise nothing changes.
     */
    method PutStreamWithType(key: Option<string>, stream: Option<Stream>, fileName: Option<string>, contentType: Option<string>)
      requires Valid()
      modifies this
      ensures Valid()
      ensures key.None? || stream.None? ==> fileParams == old(fileParams)
      ensures key.Some? && stream.Some? ==>
                && |fileParams| == |old(fileParams)| + 1
                && old(Files()) <= Files()
                && forall e :: e in Files() - old(Files()) ==>
                     && fresh(e.1)
                     && e.0 == key.value
                     && e.1.inputStream == stream
                     && e.1.fileName == fileName
                     && e.1.contentType == contentType
      ensures urlParams == old(urlParams) && urlParamsWithArray == old(urlParamsWithArray)
    {
      if key.Some? && stream.Some? {
        var file := new FileWrapper(stream, fileName, contentType);
        fileParams := fileParams + [(key.value, file)];
      }
    }

    /** `put(key, stream, fileName)`: as above with no content type. */
    method PutStreamWithName(key: Option<string>, stream: Option<Stream>, fileName: Option<string>)
      requires Valid()
      modifies this
      ensures Valid()
      ensures key.None? || stream.None? ==> fileParams == old(fileParams)
      ensures key.Some? && stream.Some? ==>
                && |fileParams| == |old(fileParams)| + 1
                && old(Files()) <= Files()
                && forall e :: e in Files() - old(Files()) ==>
                     && fresh(e.1)
                     && e.0 == key.value
                     && e.1.inputStream == stream
                     && e.1.fileName == fileName
                     && e.1.contentType.None?
      ensures urlParams == old(urlParams) && urlParamsWithArray == old(urlParamsWithArray)
    {
      PutStreamWithType(key, stream, fileName, None);
    }

    /** `put(key, stream)`: as above with neither file name nor content type. */
    method PutStream(key: Option<string>, stream: Option<Stream>)
      requires Valid()
      modifies this
      ensures Valid()
      ensures key.None? || stream.None? ==> fileParams == old(fileParams)
      ensures key.Some? && stream.Some? ==>
                && |fileParams| == |old(fileParams)| + 1
                && old(Files()) <= Files()
                && forall e :: e in Files() - old(Files()) ==>
                     && fresh(e.1)
                     && e.0 == key.value
                     && e.1.inputStream == stream
                     && e.1.fileName.None?
                     && e.1.contentType.None?
      ensures urlParams == old(urlParams) && urlParamsWithArray == old(urlParamsWithArray)
    {
      PutStreamWithName(key, stream, None);
    }

    /** `remove(key)`: no entry under `key` is left in any multimap; every other entry stays. */
    method Remove(key: Option<string>)
      requires Valid()
      modifies this
      ensures Valid()
      ensures forall e :: e in urlParams <==> e in old(urlParams) && Some(e.0) != key
      ensures forall e :: e in fileParams <==> e in old(fileParams) && Some(e.0) != key
      ensures forall e :: e in urlParamsWithArray <==> e in old(urlParamsWithArray) && Some(e.0) != key
    {
      if key.Some? {
        var name := key.value;
        urlParams := Filter(urlParams, (e: ScalarEntry) => e.0 != name);
        fileParams := Filter(fileParams, (e: FileEntry) => e.0 != name);
        urlParamsWithArray := Filter(urlParamsWithArray, (e: ArrayEntry) => e.0 != name);
      }
    }

    /**
     * `remove(key, val)`: removes only the scalar pair (key, val). A string
     * never equals a list or a file wrapper, so the other multimaps keep
     * every entry.
     */
    method RemovePair(key: Option<string>, val: Option<string>)
      requires Valid()
      modifies this
      ensures Valid()
      ensures Scalars() == if key.Some? && val.Some? then old(Scalars()) - {(key.value, val.value)} else old(Scalars())
      ensures key.None? || val.None? ==> urlParams == old(urlParams)
      ensures fileParams == old(fileParams) && urlParamsWithArray == old(urlParamsWithArray)
    {
      if key.Some? && val.Some? {
        var pair := (key.value, val.value);
        urlParams := Filter(urlParams, (e: ScalarEntry) => e != pair);
      }
    }

    /** `toString`: the debug rendering of the current entries. */
    method ToString() returns (result: string)
      ensures result == DebugString(urlParams, fileParams, urlParamsWithArray)
    {
      result := AppendScalarEntries("", urlParams);
      result := AppendFileEntries(result, fileParams);
      result := AppendArrayEntries(result, urlParamsWithArray);
    }

    /** The scalar loop of `toString`. */
    static method AppendScalarEntries(text: string, scalars: seq<ScalarEntry>) returns (result: string)
      ensures result == AppendScalars(text, scalars)
    {
      result := text;
      var i := 0;
      while i < |scalars|
        invariant 0 <= i <= |scalars|
        invariant result == AppendScalars(text, scalars[..i])
      {
        ghost var before := result;
        if |result| > 0 {
          result := result + "&";
        }
        result := result + scalars[i].0 + "=" + scalars[i].1;
        assert result == Separated(before) + Piece(scalars[i].0, scalars[i].1);
        assert scalars[..i + 1][..i] == scalars[..i];
        i := i + 1;
      }
      assert scalars[..i] == scalars;
    }

    /** The file loop of `toString`. */
    static method AppendFileEntries(text: string, files: seq<FileEntry>) returns (result: string)
      ensures result == AppendFiles(text, files)
    {
      result := text;
      var j := 0;
      while j < |files|
        invariant 0 <= j <= |files|
        invariant result == AppendFiles(text, files[..j])
      {
        ghost var before := result;
        if |result| > 0 {
          result := result + "&";
        }
        result := result + files[j].0 + "=" + "FILE";
        assert result == Separated(before) + Piece(files[j].0, "FILE");
        assert files[..j + 1][..j] == files[..j];
        j := j + 1;
      }
      assert files[..j] == files;
    }

    /** The array loop of `toString`. */
    static method AppendArrayEntries(text: string, arrays: seq<ArrayEntry>) returns (result: string)
      ensures result == AppendArrays(text, arrays)
    {
      result := text;
      var k := 0;
      while k < |arrays|
        invariant 0 <= k <= |arrays|
        invariant result == AppendArrays(text, arrays[..k])
      {
        ghost var before := result;
        if |result| > 0 {
          result := result + "&";
        }
        assert result == Separated(before);
        result := AppendValues(result, arrays[k].0, arrays[k].1);
        assert arrays[..k + 1][..k] == arrays[..k];
        k := k + 1;
      }
      assert arrays[..k] == arrays;
    }

    /** The inner loop of `toString`: the values of one list, a `&` before all but the first. */
    static method AppendValues(text: string, name: string, values: seq<string>) returns (result: string)
      ensures result == AppendList(text, name, values)
    {
      result := text;
      var m := 0;
      while m < |values|
        invariant 0 <= m <= |values|
        invariant result == AppendList(text, name, values[..m])
      {
        ghost var before := result;
        if m != 0 {
          result := result + "&";
        }
        result := result + name + "=" + values[m];
        assert result == (if m != 0 then before + "&" else before) + Piece(name, values[m]);
        assert values[..m + 1][..m] == values[..m];
        m := m + 1;
      }
      assert values[..m] == values;
    }

    /** `getParamsList`: the fields of the URL-encoded body. */
    method GetParamsList() returns (params: seq<NameValuePair>)
      ensures params == ParamsList(urlParams, urlParamsWithArray)
    {
      var scalars, arrays := urlParams, urlParamsWithArray;
      params := [];
      var i := 0;
      while i < |scalars|
        invariant 0 <= i <= |scalars|
        invariant params == ScalarPairs(scalars[..i])
      {
        params := params + [NameValuePair(scalars[i].0, scalars[i].1)];
        assert scalars[..i + 1][..i] == scalars[..i];
        i := i + 1;
      }
      assert scalars[..i] == scalars;

      var k := 0;
      while k < |arrays|
        invariant 0 <= k <= |arrays|
        invariant params == ScalarPairs(scalars) + ExpandArrays(arrays[..k])
      {
        var name := arrays[k].0;
        var values := arrays[k].1;
        ghost var done := params;
        var m := 0;
        while m < |values|
          invariant 0 <= m <= |values|
          invariant params == done + ListPairs(name, values[..m])
        {
          params := params + [NameValuePair(name, values[m])];
          assert ListPairs(name, values[..m + 1]) == ListPairs(name, values[..m]) + [NameValuePair(name, values[m])] by {
            assert values[..m + 1][..m] == values[..m];
          }
          ConcatAssociative(done, ListPairs(name, values[..m]), [NameValuePair(name, values[m])]);
          m := m + 1;
        }
        assert ExpandArrays(arrays[..k + 1]) == ExpandArrays(arrays[..k]) + ListPairs(name, values) by {
          assert values[..m] == values;
          assert arrays[..k + 1][..k] == arrays[..k];
        }
        ConcatAssociative(ScalarPairs(scalars), ExpandArrays(arrays[..k]), ListPairs(name, values));
        k := k + 1;
      }
      assert arrays[..k] == arrays;
    }

    /**
     * `getEntity`: a multipart body, built by `addPart` calls, exactly when
     * there is a file entry; a URL-encoded form of `getParamsList` otherwise.
     */
    method GetEntity() returns (entity: Entity)
      ensures entity == EntityOf(urlParams, urlParamsWithArray, fileParams)
      ensures entity.MultipartForm? <==> |fileParams| > 0
    {
      var scalars, arrays, files := urlParams, urlParamsWithArray, fileParams;
      if |files| > 0 {
        var parts := AddScalarFields([], scalars);
        parts := AddArrayFields(parts, arrays);
        ghost var fields := parts;
        assert fields == StringParts(ParamsList(scalars, arrays)) by {
          StringPartsAppend(ScalarPairs(scalars), ExpandArrays(arrays));
        }
        parts := AddFileParts(parts, files);
        assert parts == PartPlan(scalars, arrays, files);
        entity := MultipartForm(parts);
      } else {
        var pairs := GetParamsList();
        entity := UrlEncodedForm(pairs);
      }
    }

    /** The scalar loop of `getEntity`: one `addPart(key, value)` per entry. */
    static method AddScalarFields(parts: seq<Part>, scalars: seq<ScalarEntry>) returns (result: seq<Part>)
      ensures result == parts + StringParts(ScalarPairs(scalars))
    {
      result := parts;
      var i := 0;
      while i < |scalars|
        invariant 0 <= i <= |scalars|
        invariant result == parts + StringParts(ScalarPairs(scalars[..i]))
      {
        result := result + [StringPart(scalars[i].0, scalars[i].1)];
        assert scalars[..i + 1][..i] == scalars[..i];
        StringPartsAppend(ScalarPairs(scalars[..i]), [NameValuePair(scalars[i].0, scalars[i].1)]);
        i := i + 1;
      }
      assert scalars[..i] == scalars;
    }

    /** The array loop of `getEntity`: one `addPart(key, value)` per value of each list. */
    static method AddArrayFields(parts: seq<Part>, arrays: seq<ArrayEntry>) returns (result: seq<Part>)
      ensures result == parts + StringParts(ExpandArrays(arrays))
    {
      result := parts;
      var k := 0;
      while k < |arrays|
        invariant 0 <= k <= |arrays|
        invariant result == parts + StringParts(ExpandArrays(arrays[..k]))
      {
        ghost var done := StringParts(ExpandArrays(arrays[..k]));
        ghost var added := StringParts(ListPairs(arrays[k].0, arrays[k].1));
        result := AddValueFields(result, arrays[k].0, arrays[k].1);
        ConcatAssociative(parts, done, added);
        assert done + added == StringParts(ExpandArrays(arrays[..k + 1])) by {
          assert arrays[..k + 1][..k] == arrays[..k];
          assert ExpandArrays(arrays[..k + 1]) == ExpandArrays(arrays[..k]) + ListPairs(arrays[k].0, arrays[k].1);
          StringPartsAppend(ExpandArrays(arrays[..k]), ListPairs(arrays[k].0, arrays[k].1));
        }
        k := k + 1;
      }
      assert arrays[..k] == arrays;
    }

    /** The inner loop over one list's values. */
    static method AddValueFields(parts: seq<Part>, name: string, values: seq<string>) returns (result: seq<Part>)
      ensures result == parts + StringParts(ListPairs(name, values))
    {
      result := parts;
      var m := 0;
      while m < |values|
        invariant 0 <= m <= |values|
        invariant result == parts + StringParts(ListPairs(name, values[..m]))
      {
        ghost var done := StringParts(ListPairs(name, values[..m]));
        result := result + [StringPart(name, values[m])];
        assert StringParts(ListPairs(name, values[..m + 1])) == done + [StringPart(name, values[m])] by {
          assert values[..m + 1][..m] == values[..m];
          assert ListPairs(name, values[..m + 1]) == ListPairs(name, values[..m]) + [NameValuePair(name, values[m])];
          StringPartsAppend(ListPairs(name, values[..m]), [NameValuePair(name, values[m])]);
        }
        ConcatAssociative(parts, done, [StringPart(name, values[m])]);
        m := m + 1;
      }
      assert values[..m] == values;
    }

    /**
     * The file loop of `getEntity`: a counter runs over the entries; each
     * entry with a stream gives one file part, flagged last when the counter
     * equals `size - 1`, in the content-type form when it has a content type.
     */
    static method AddFileParts(parts: seq<Part>, files: seq<FileEntry>) returns (result: seq<Part>)
      ensures result == parts + FileParts(files, |files| - 1)
    {
      result := parts;
      var currentIndex := 0;
      var lastIndex := |files| - 1;
      while currentIndex < |files|
        invariant 0 <= currentIndex <= |files|
        invariant result == parts + FileParts(files[..currentIndex], lastIndex)
      {
        var name := files[currentIndex].0;
        var file := files[currentIndex].1;
        if file.inputStream.Some? {
          var isLast := currentIndex == lastIndex;
          if file.contentType.Some? {
            result := result + [TypedFilePart(name, file.GetFileName(), file.inputStream.value, file.contentType.value, isLast)];
          } else {
            result := result + [FilePart(name, file.GetFileName(), file.inputStream.value, isLast)];
          }
        }
        assert files[..currentIndex + 1][..currentIndex] == files[..currentIndex];
        currentIndex := currentIndex + 1;
      }
      assert files[..currentIndex] == files;
    }
  }

  lemma ConcatAssociative<T>(a: seq<T>, b: seq<T>, c: seq<T>)
    ensures a + b + c == a + (b + c)
  {
  }

  /**
   * After `remove(key)` nothing under `key` is sent, whichever body is built:
   * no URL-encoded field and no multipart part carries that name.
   */
  lemma RemovedKeyNotRendered(scalars: seq<ScalarEntry>, arrays: seq<ArrayEntry>, files: seq<FileEntry>, key: string)
    requires forall e :: e in scalars ==> e.0 != key
    requires forall e :: e in arrays ==> e.0 != key
    requires forall e :: e in files ==> e.0 != key
    ensures EntityOf(scalars, arrays, files).UrlEncodedForm? ==>
              forall p :: p in EntityOf(scalars, arrays, files).pairs ==> p.name != key
    ensures EntityOf(scalars, arrays, files).MultipartForm? ==>
              forall p :: p in EntityOf(scalars, arrays, files).parts ==> p.name != key
  {
    ParamsListWithoutName(scalars, arrays, key);
    PartPlanWithoutName(scalars, arrays, files, key);
  }
}
