/**
 * The encoder: what `fileToGenerativePart` does with the value a `FileReader`
 * hands to its `onloadend` callback after `readAsDataURL`. The reader itself
 * is not modelled; its outcome is an input.
 */
module ImageUtils {
  import opened Types

  const ReadAsStringFailedMessage := "Failed to read file as string."
  const ExtractFailedMessage := "Failed to extract base64 data from file."

  /** `reader.result`: a string, or something else (an `ArrayBuffer`, `null`). */
  datatype ReaderValue = StringResult(text: string) | OtherResult

  /** How the read ended: `onloadend` with a result, or `onerror` with the value it was given. */
  datatype ReaderOutcome = Loaded(result: ReaderValue) | ReadFailed(cause: Thrown)

  /** The fields joined back with commas: the inverse of `Split`. */
  function Join(fields: seq<string>): string
    requires |fields| >= 1
    decreases |fields|
  {
    if |fields| == 1 then fields[0] else fields[0] + "," + Join(fields[1..])
  }

  /** JavaScript's `s.split(',')`: the maximal comma-free runs of `s`, in order. */
  function Split(s: string): (fields: seq<string>)
    ensures |fields| >= 1
    ensures forall k | 0 <= k < |fields| :: ',' !in fields[k]
    ensures Join(fields) == s
    decreases |s|
  {
    if s == [] then [""]
    else
      var rest := Split(s[1..]);
      if s[0] == ',' then
        assert s == "," + s[1..];
        [""] + rest
      else
        var fields := [[s[0]] + rest[0]] + rest[1..];
        assert fields[1..] == rest[1..];
        assert Join(fields) == [s[0]] + Join(rest);
        assert s == [s[0]] + s[1..];
        fields
  }

  /** `s.split(',')[1]`: `None` stands for `undefined`. */
  function SecondField(s: string): (field: Option<string>)
    ensures field.Some? ==> ',' !in field.value
  {
    var fields := Split(s);
    if |fields| > 1 then Some(fields[1]) else None
  }

  /** `s` is `head + "," + field + tail`, with `field` the whole text between the first comma and the next one (or the end). */
  ghost predicate FieldsAround(s: string, head: string, field: string, tail: string) {
    && s == head + "," + field + tail
    && ',' !in head
    && ',' !in field
    && (tail == [] || tail[0] == ',')
  }

  /** The `onloadend` logic: the type test, the split, the falsy check and the result record. */
  function FileToGenerativePart(file: File, read: ReaderOutcome): (r: Result<GenerativePart, Thrown>)
    ensures read.ReadFailed? ==> r == Failure(read.cause)
    ensures read == Loaded(OtherResult) ==> r == Failure(Error(ReadAsStringFailedMessage))
    ensures r.Success? ==> r.value.inlineData.mimeType == file.fileType
    ensures r.Success? ==> r.value.inlineData.data != "" && ',' !in r.value.inlineData.data
  {
    match read
    case ReadFailed(cause) => Failure(cause)
    case Loaded(OtherResult) => Failure(Error(ReadAsStringFailedMessage))
    case Loaded(StringResult(text)) =>
      var base64Data := SecondField(text);
      if !Truthy(base64Data) then Failure(Error(ExtractFailedMessage))
      else Success(GenerativePart(InlineData(base64Data.value, file.fileType)))
  }

  // ---------------------------------------------------------------------------
  // Split and Join are inverses

  /** Comma-free text is a single field. */
  lemma SplitCommaFree(s: string)
    requires ',' !in s
    ensures Split(s) == [s]
  {
  }

  lemma {:induction false} SplitAfterField(head: string, rest: string)
    requires ',' !in head
    ensures Split(head + "," + rest) == [head] + Split(rest)
    decreases |head|
  {
    if head == [] {
      assert head + "," + rest == "," + rest;
      assert ("," + rest)[1..] == rest;
    } else {
      var s := head + "," + rest;
      assert s[0] == head[0] && s[0] != ',';
      assert s[1..] == head[1..] + "," + rest;
      assert ',' !in head[1..] by {
        forall k | 0 <= k < |head[1..]| ensures head[1..][k] != ',' { assert head[1..][k] == head[k + 1]; }
      }
      SplitAfterField(head[1..], rest);
      assert [head[0]] + head[1..] == head;
    }
  }

  /** Splitting the join of comma-free fields gives the fields back. */
  lemma {:induction false} SplitJoin(fields: seq<string>)
    requires |fields| >= 1
    requires forall k | 0 <= k < |fields| :: ',' !in fields[k]
    ensures Split(Join(fields)) == fields
    decreases |fields|
  {
    if |fields| == 1 {
      SplitCommaFree(fields[0]);
    } else {
      SplitJoin(fields[1..]);
      SplitAfterField(fields[0], Join(fields[1..]));
      assert [fields[0]] + fields[1..] == fields;
    }
  }

  // ---------------------------------------------------------------------------
  // What `split(',')[1]` picks out

  /** There is no second field exactly when the text holds no comma. */
  lemma SecondFieldAbsent(s: string)
    ensures SecondField(s) == None <==> ',' !in s
  {
  }

  /** A second field is the text between the first comma and the next comma or the end. */
  lemma SecondFieldDecomposes(s: string)
    requires SecondField(s).Some?
    ensures exists head, tail :: FieldsAround(s, head, SecondField(s).value, tail)
  {
    var fields := Split(s);
    var tail := if |fields| == 2 then "" else "," + Join(fields[2..]);
    assert fields[1..][1..] == fields[2..];
    assert Join(fields[1..]) == fields[1] + tail;
    assert s == fields[0] + "," + fields[1] + tail;
    assert FieldsAround(s, fields[0], fields[1], tail);
  }

  /** Conversely, whatever stands between the first comma and the next one (or the end) is the second field. */
  lemma SecondFieldOfDecomposition(s: string, head: string, field: string, tail: string)
    requires FieldsAround(s, head, field, tail)
    ensures SecondField(s) == Some(field)
  {
    if tail == [] {
      assert s == head + "," + field;
      SplitAfterField(head, field);
      SplitCommaFree(field);
    } else {
      var after := tail[1..];
      assert tail == "," + after;
      assert s == head + "," + (field + "," + after);
      SplitAfterField(head, field + "," + after);
      SplitAfterField(field, after);
    }
  }

  // ---------------------------------------------------------------------------
  // Properties of the encoder

  /** A successful payload is exactly the text between the first comma and the next one (or the end). */
  lemma PayloadBetweenCommas(file: File, read: ReaderOutcome)
    requires FileToGenerativePart(file, read).Success?
    ensures read.Loaded? && read.result.StringResult?
    ensures exists head, tail :: FieldsAround(read.result.text, head, FileToGenerativePart(file, read).value.inlineData.data, tail)
  {
    SecondFieldDecomposes(read.result.text);
  }

  /** Extraction fails with its fixed message exactly when there is no comma or nothing follows the first comma. */
  lemma ExtractFailsWithoutPayload(file: File, text: string)
    ensures FileToGenerativePart(file, Loaded(StringResult(text))) == Failure(Error(ExtractFailedMessage))
        <==> (',' !in text || exists head, tail :: FieldsAround(text, head, "", tail))
  {
    SecondFieldAbsent(text);
    if SecondField(text).Some? {
      SecondFieldDecomposes(text);
      if exists head, tail :: FieldsAround(text, head, "", tail) {
        var head, tail :| FieldsAround(text, head, "", tail);
        SecondFieldOfDecomposition(text, head, "", tail);
      }
    }
  }

  /** Round trip: reading `header + "," + body` yields `body`, tagged with the file's declared type. */
  lemma ExtractRoundTrip(file: File, header: string, body: string)
    requires ',' !in header && ',' !in body && body != ""
    ensures FileToGenerativePart(file, Loaded(StringResult(header + "," + body)))
         == Success(GenerativePart(InlineData(body, file.fileType)))
  {
    assert header + "," + body == header + "," + body + "";
    SecondFieldOfDecomposition(header + "," + body, header, body, "");
  }
}
