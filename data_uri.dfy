/** The data-URI prefix handling of `get_cv2_image_from_base64_string`: `s.split(',')` and
    the choice of the payload handed to the base64 decoder. */
module DataUri {

  /** `fields[0] + "," + fields[1] + "," + ...`, i.e. `",".join(fields)`. */
  function Join(fields: seq<string>): string
    requires |fields| >= 1
    decreases |fields|
  {
    if |fields| == 1 then fields[0] else fields[0] + "," + Join(fields[1..])
  }

  /** Python's `s.split(',')`: the text between consecutive commas, empty fields included.
      There is one field more than there are commas, no field holds a comma, and joining
      the fields with commas gives back s. */
  function Split(s: string): (fields: seq<string>)
    ensures |fields| >= 1
    ensures forall f :: f in fields ==> ',' !in f
    ensures Join(fields) == s
    ensures |fields| >= 2 <==> ',' in s
    decreases |s|
  {
    if |s| == 0 then [""]
    else
      var rest := Split(s[1..]);
      if s[0] == ',' then
        assert ([""] + rest)[1..] == rest;
        [""] + rest
      else
        assert s == [s[0]] + s[1..];
        assert ([[s[0]] + rest[0]] + rest[1..])[1..] == rest[1..];
        assert forall f :: f in [[s[0]] + rest[0]] + rest[1..] ==> f == [s[0]] + rest[0] || f in rest;
        [[s[0]] + rest[0]] + rest[1..]
  }

  /** Splitting a text that starts with a comma-free field and a comma. */
  lemma {:induction false} SplitAfterField(field: string, t: string)
    requires ',' !in field
    ensures Split(field + "," + t) == [field] + Split(t)
    decreases |field|
  {
    if |field| == 0 {
      assert field + "," + t == [','] + t;
      assert ([','] + t)[1..] == t;
    } else {
      var s := field + "," + t;
      assert s[1..] == field[1..] + "," + t;
      SplitAfterField(field[1..], t);
      assert [field[0]] + field[1..] == field;
    }
  }

  /** Splitting a comma-free text gives that text alone. */
  lemma {:induction false} SplitNoComma(field: string)
    requires ',' !in field
    ensures Split(field) == [field]
  {
  }

  /** The other half of the round trip: splitting the join of comma-free fields gives them back. */
  lemma {:induction false} SplitJoin(fields: seq<string>)
    requires |fields| >= 1
    requires forall f :: f in fields ==> ',' !in f
    ensures Split(Join(fields)) == fields
    decreases |fields|
  {
    if |fields| == 1 {
      SplitNoComma(fields[0]);
    } else {
      assert fields[0] in fields;
      assert forall f :: f in fields[1..] ==> f in fields;
      SplitJoin(fields[1..]);
      SplitAfterField(fields[0], Join(fields[1..]));
      assert [fields[0]] + fields[1..] == fields;
    }
  }

  /** The payload of lines 135-138: `b64str.split(',')[1]` when the text holds a comma,
      otherwise the whole text. */
  function Payload(b64str: string): (encoded: string)
    ensures ',' !in b64str ==> encoded == b64str
    ensures ',' in b64str ==> ',' !in encoded
  {
    if ',' in b64str then
      var fields := Split(b64str);
      assert fields[1] in fields;
      fields[1]
    else b64str
  }

  /** The first field of a text is everything up to its first comma. */
  lemma {:induction false} FirstField(field: string, rest: string)
    requires ',' !in field
    requires rest == [] || rest[0] == ','
    ensures Split(field + rest)[0] == field
  {
    if rest == [] {
      assert field + rest == field;
      SplitNoComma(field);
    } else {
      assert field + rest == field + "," + rest[1..];
      SplitAfterField(field, rest[1..]);
    }
  }

  /** With a comma present, the payload is the text between the first comma and the second
      comma (or the end): `meta,payload` and `meta,payload,more` both give `payload`. */
  lemma {:induction false} PayloadBetweenCommas(meta: string, payload: string, rest: string)
    requires ',' !in meta && ',' !in payload
    requires rest == [] || rest[0] == ','
    ensures Payload(meta + "," + payload + rest) == payload
  {
    var s := meta + "," + payload + rest;
    assert s == meta + "," + (payload + rest);
    SplitAfterField(meta, payload + rest);
    FirstField(payload, rest);
    assert Split(s)[1] == Split(payload + rest)[0];
    assert s[|meta|] == ',';
  }
}
