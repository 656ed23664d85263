/** The `application/x-www-form-urlencoded` query string of a parameter
    dictionary: `key=value` fields in insertion order, joined by `&`. */
module FormEncoding {
  import opened Values
  import opened Dict

  /** The text of a value; a float's text comes from the runtime's formatter. */
  function Render(floatText: real -> string, v: Value): string {
    match v
    case Str(s) => s
    case Int(i) => IntText(i)
    case Num(x) => floatText(x)
  }

  function Field(floatText: real -> string, e: Entry): string {
    e.0 + "=" + Render(floatText, e.1)
  }

  /** `urlencode(m)`. */
  function Encode(floatText: real -> string, m: seq<Entry>): string
    decreases |m|
  {
    if m == [] then ""
    else if |m| == 1 then Field(floatText, m[0])
    else Field(floatText, m[0]) + "&" + Encode(floatText, m[1..])
  }

  /** Appending an entry to the dictionary appends `&key=value` to its
      encoding (or makes it the whole encoding of a one-entry dictionary). */
  lemma {:induction false} EncodeSnoc(floatText: real -> string, m: seq<Entry>, e: Entry)
    ensures Encode(floatText, m + [e]) ==
            if m == [] then Field(floatText, e)
            else Encode(floatText, m) + "&" + Field(floatText, e)
  {
    if m == [] {
      assert m + [e] == [e];
    } else if |m| == 1 {
      assert (m + [e])[1..] == [e];
    } else {
      assert (m + [e])[1..] == m[1..] + [e];
      EncodeSnoc(floatText, m[1..], e);
    }
  }
}
