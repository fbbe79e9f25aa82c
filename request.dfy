/** What the two Flask handlers read from a request and the environment:
    JSON fields, `str.strip()`, and `os.getenv`. */
module Request {
  import opened Common

  /** One field of the JSON body: absent, a string, or some other JSON value
      (null, a number, a list, ...), on which `.strip()` raises. */
  datatype Field = Absent | Text(text: string) | NonText

  /** `str.isspace()` for one character: the Unicode white space characters
      plus the separators U+001C..U+001F. */
  predicate IsSpace(c: char) {
    c == ' ' || '\t' <= c <= '\r' || '\U{1C}' <= c <= '\U{1F}' || c == '\U{85}' || c == '\U{A0}'
    || c == '\U{1680}' || '\U{2000}' <= c <= '\U{200A}' || c == '\U{2028}' || c == '\U{2029}'
    || c == '\U{202F}' || c == '\U{205F}' || c == '\U{3000}'
  }

  /** `s.lstrip()`. */
  function StripStart(s: string): (r: string)
    ensures |r| <= |s| && r == s[|s| - |r|..]
    ensures forall i :: 0 <= i < |s| - |r| ==> IsSpace(s[i])
    ensures r == [] || !IsSpace(r[0])
  {
    if s == [] || !IsSpace(s[0]) then s else StripStart(s[1..])
  }

  /** `s.rstrip()`. */
  function StripEnd(s: string): (r: string)
    ensures |r| <= |s| && r == s[..|r|]
    ensures forall i :: |r| <= i < |s| ==> IsSpace(s[i])
    ensures r == [] || !IsSpace(r[|r| - 1])
  {
    if s == [] || !IsSpace(s[|s| - 1]) then s else StripEnd(s[..|s| - 1])
  }

  /** `s.strip()`. */
  function Strip(s: string): string {
    StripEnd(StripStart(s))
  }

  /** What strip keeps is a contiguous piece of the input, starting after
      the leading white space. */
  lemma StripIsInfix(s: string)
    ensures var r := Strip(s); var a := |s| - |StripStart(s)|;
      a + |r| <= |s| && r == s[a..a + |r|]
  {
    var t := StripStart(s);
    var r := StripEnd(t);
    var a := |s| - |t|;
    assert t == s[a..];
    assert r == t[..|r|];
    assert s[a..a + |r|] == s[a..][..|r|];
  }

  /** Everything strip drops around that piece is white space. */
  lemma StripDropsSpace(s: string)
    ensures var r := Strip(s); var a := |s| - |StripStart(s)|;
      && (forall i :: 0 <= i < a ==> IsSpace(s[i]))
      && (forall i :: a + |r| <= i < |s| ==> IsSpace(s[i]))
  {
    var t := StripStart(s);
    var r := StripEnd(t);
    var a := |s| - |t|;
    forall i | a + |r| <= i < |s|
      ensures IsSpace(s[i])
    {
      assert s[i] == t[i - a];
    }
  }

  /** The result has no white space at either end. */
  lemma StripEnds(s: string)
    ensures var r := Strip(s);
      r == [] || (!IsSpace(r[0]) && !IsSpace(r[|r| - 1]))
  {
    var t := StripStart(s);
    var r := StripEnd(t);
    if r != [] {
      assert r[0] == t[0];
    }
  }

  /** The result is empty exactly when the input is all white space. */
  lemma StripEmptyIff(s: string)
    ensures Strip(s) == [] <==> forall i :: 0 <= i < |s| ==> IsSpace(s[i])
  {
    var t := StripStart(s);
    if Strip(s) == [] {
      assert t == [];
    }
    if forall i :: 0 <= i < |s| ==> IsSpace(s[i]) {
      if t != [] {
        assert t[0] == s[|s| - |t|];
      }
    }
  }

  /** Stripping twice is stripping once. */
  lemma StripIdempotent(s: string)
    ensures Strip(Strip(s)) == Strip(s)
  {
  }

  /** `data.get(key, default).strip()`: None when the value is not a string
      (the call raises). */
  function FieldText(f: Field, default: string): (r: Option<string>)
    ensures r.None? <==> f.NonText?
  {
    match f
    case Absent => Some(Strip(default))
    case Text(t) => Some(Strip(t))
    case NonText => None
  }

  /** `os.getenv(name)`. */
  function Getenv(env: map<string, string>, name: string): (r: Option<string>)
    ensures r.Some? <==> name in env
  {
    if name in env then Some(env[name]) else None
  }

  /** `os.getenv(name, default)`. */
  function GetenvOr(env: map<string, string>, name: string, default: string): string {
    if name in env then env[name] else default
  }

  /** The `Authorization` header check both handlers run: present, non-empty,
      and equal to the configured secret (which may itself be unset). */
  predicate Authorized(authToken: Option<string>, secret: Option<string>) {
    Truthy(authToken) && authToken == secret
  }

  /** The public image URL of a voucher, as both handlers format it; a NULL
      code is formatted by Python as "None". */
  function ImageUrl(code: Option<string>): string {
    "http://209.38.84.84/images/voucher_" + (if code.Some? then code.value else "None") + ".jpg"
  }
}
