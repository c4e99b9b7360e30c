/**
 * The values the parameter bag stores and the values its renderings produce:
 * file uploads, name/value pairs, the parts handed to the multipart writer and
 * the two kinds of request body.
 */
module Entries {
  import opened Wrappers

  /** An opaque handle for a java.io.InputStream; nothing here reads from it. */
  datatype Stream = Stream(handle: nat)

  /** The file name sent for an upload registered without one. */
  const NoFileName: string := "nofilename"

  /**
   * One file upload. A class rather than a datatype: two wrappers are equal
   * only when they are the same object, so each upload is its own entry.
   */
  class FileWrapper {
    const inputStream: Option<Stream>
    const fileName: Option<string>
    const contentType: Option<string>

    constructor (inputStream: Option<Stream>, fileName: Option<string>, contentType: Option<string>)
      ensures this.inputStream == inputStream
      ensures this.fileName == fileName
      ensures this.contentType == contentType
    {
      this.inputStream := inputStream;
      this.fileName := fileName;
      this.contentType := contentType;
    }

    /** The name the upload is sent under: its own, or the sentinel when it has none. */
    function GetFileName(): (name: string)
      ensures fileName.Some? ==> name == fileName.value
      ensures fileName.None? ==> name == NoFileName
    {
      if fileName.Some? then fileName.value else NoFileName
    }
  }

  /** An entry of the scalar multimap: one name with one value. */
  type ScalarEntry = (string, string)
  /** An entry of the array multimap: one name with a whole list of values. */
  type ArrayEntry = (string, seq<string>)
  /** An entry of the file multimap: one name with one upload. */
  type FileEntry = (string, FileWrapper)

  /** A form field as handed to the URL encoder. */
  datatype NameValuePair = NameValuePair(name: string, value: string)

  /** One call on the multipart writer: a plain field, or a file part with or without a content type. */
  datatype Part =
    | StringPart(name: string, value: string)
    | FilePart(name: string, fileName: string, stream: Stream, isLast: bool)
    | TypedFilePart(name: string, fileName: string, stream: Stream, contentType: string, isLast: bool)

  /** A file part that tells the writer to close the multipart body. */
  predicate IsFinalPart(p: Part) {
    !p.StringPart? && p.isLast
  }

  /** The request body: a URL-encoded form of pairs, or a multipart body given as its parts. */
  datatype Entity =
    | UrlEncodedForm(pairs: seq<NameValuePair>)
    | MultipartForm(parts: seq<Part>)

  /** No element occurs twice: a sequence listing the entries of a set. */
  ghost predicate NoDuplicates<T>(s: seq<T>) {
    forall i, j :: 0 <= i < j < |s| ==> s[i] != s[j]
  }

  /** The elements of `s` that `keep` accepts, in their order. */
  function Filter<T>(s: seq<T>, keep: T -> bool): (r: seq<T>)
    ensures forall i :: 0 <= i < |r| ==> r[i] in s && keep(r[i])
    ensures forall i :: 0 <= i < |s| && keep(s[i]) ==> s[i] in r
    ensures NoDuplicates(s) ==> NoDuplicates(r)
    ensures |r| <= |s|
  {
    if s == [] then []
    else
      var init, last := s[..|s| - 1], s[|s| - 1];
      assert s == init + [last];
      var rest := Filter(init, keep);
      if keep(last) then
        rest + [last]
      else rest
  }
}
