/** The Python values the exchange client handles: optional values, parsed
    JSON bodies, request parameter values, and the two pieces of Python text
    processing the client relies on (`str.upper` and `str(int)`). */
module Values {

  datatype Option<T> = None | Some(value: T)

  /** A JSON document as the HTTP library hands back a parsed response body. */
  datatype Json =
    | JNull
    | JBool(b: bool)
    | JNumber(x: real)
    | JString(s: string)
    | JArray(items: seq<Json>)
    | JObject(members: seq<(string, Json)>)

  /** A request parameter value: text (symbol, side, type, signature), an
      integer (the millisecond timestamp) or a Python float (quantity, price),
      the latter as an exact real. */
  datatype Value = Str(s: string) | Int(i: int) | Num(x: real)

  /** Python truthiness of an optional parameter, as in `if price:`:
      `None`, the empty string and zero are false. */
  predicate Truthy(v: Option<Value>) {
    match v
    case None => false
    case Some(Str(s)) => s != ""
    case Some(Int(i)) => i != 0
    case Some(Num(x)) => x != 0.0
  }

  /** `str.upper` on one character, for the ASCII letters. */
  function UpperChar(c: char): char {
    if 'a' <= c <= 'z' then (c as int - 32) as char else c
  }

  predicate IsLower(c: char) {
    'a' <= c <= 'z'
  }

  /** `str.upper` on a string, character by character. */
  function Upper(s: string): (r: string)
    ensures |r| == |s|
  {
    if s == [] then [] else [UpperChar(s[0])] + Upper(s[1..])
  }

  /** Upper-casing leaves no lower-case letter behind, changes only the
      lower-case letters, and keeps the length. */
  lemma {:induction false} UpperSpec(s: string)
    ensures |Upper(s)| == |s|
    ensures forall i :: 0 <= i < |s| ==> !IsLower(Upper(s)[i])
    ensures forall i :: 0 <= i < |s| && !IsLower(s[i]) ==> Upper(s)[i] == s[i]
    ensures forall i :: 0 <= i < |s| && IsLower(s[i]) ==> Upper(s)[i] as int == s[i] as int - 32
  {
    if s != [] {
      UpperSpec(s[1..]);
      forall i | 1 <= i < |s|
        ensures Upper(s)[i] == Upper(s[1..])[i - 1]
      {
      }
    }
  }

  function DigitChar(d: int): char
    requires 0 <= d < 10
  {
    "0123456789"[d]
  }

  /** `str(n)` for a natural number: its decimal digits, most significant first. */
  function NatText(n: nat): string
    decreases n
  {
    if n < 10 then [DigitChar(n)] else NatText(n / 10) + [DigitChar(n % 10)]
  }

  /** `str(i)` for a Python int. */
  function IntText(i: int): string {
    if i < 0 then "-" + NatText(-i) else NatText(i)
  }
}
