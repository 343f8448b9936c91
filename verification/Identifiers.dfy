/**
 Domain identifiers. Validation looks at the trimmed string, but the identifier keeps the string it
 was given, so a stored identifier may carry surrounding whitespace.
 */
module Identifiers {
  import opened Wrappers
  import opened Text

  datatype IdError = EmptyId | TooLong | IllegalCharacter

  predicate Allowed(c: char) {
    'a' <= c <= 'z' || 'A' <= c <= 'Z' || '0' <= c <= '9' || c == '-' || c == '_'
  }

  /** Length of the UTF-8 encoding, which is what the length limit counts. */
  function ByteLength(s: string): (n: nat)
    ensures n >= |s|
  {
    if s == [] then 0
    else
      var c := s[0] as int;
      (if c < 0x80 then 1 else if c < 0x800 then 2 else if c < 0x1_0000 then 3 else 4) + ByteLength(s[1..])
  }

  function Validate(value: string): (r: Result<(), IdError>) {
    var trimmed := Trim(value);
    if trimmed == [] then Err(EmptyId)
    else if ByteLength(trimmed) > 64 then Err(TooLong)
    else if exists i :: 0 <= i < |trimmed| && !Allowed(trimmed[i]) then Err(IllegalCharacter)
    else Ok(())
  }

  predicate ValidId(s: string) {
    Validate(s).Ok?
  }

  lemma {:induction false} AllowedByteLength(s: string)
    requires forall i :: 0 <= i < |s| ==> Allowed(s[i])
    ensures ByteLength(s) == |s|
  {
    if s != [] {
      assert Allowed(s[0]);
      AllowedByteLength(s[1..]);
    }
  }

  /** Accepted identifiers are 1 to 64 allowed characters inside optional whitespace. */
  lemma ValidIdShape(s: string)
    ensures ValidId(s) <==>
            1 <= |Trim(s)| <= 64 && forall i :: 0 <= i < |Trim(s)| ==> Allowed(Trim(s)[i])
  {
    if forall i :: 0 <= i < |Trim(s)| ==> Allowed(Trim(s)[i]) {
      AllowedByteLength(Trim(s));
    }
  }

  /** An accepted identifier holds no character other than allowed ones and whitespace. */
  lemma ValidIdCharacters(s: string)
    requires ValidId(s)
    ensures forall i :: 0 <= i < |s| ==> Allowed(s[i]) || IsWhitespace(s[i])
  {
    var k := TrimStartSuffix(s);
    var j := TrimEndPrefix(s[k..]);
    forall i | 0 <= i < |s| ensures Allowed(s[i]) || IsWhitespace(s[i]) {
      if k <= i < k + j {
        assert Trim(s)[i - k] == s[i];
      } else if i >= k + j {
        assert s[k..][i - k] == s[i];
      }
    }
  }

  const LOWER: string := "abcdefghijklmnopqrstuvwxyz"

  const UPPER: string := "ABCDEFGHIJKLMNOPQRSTUVWXYZ"

  lemma LowerLetters(c: char)
    ensures 'a' <= c <= 'z' <==> c in LOWER
  {
    if 'a' <= c <= 'z' { assert LOWER[c as int - 'a' as int] == c; }
  }

  lemma UpperLetters(c: char)
    ensures 'A' <= c <= 'Z' <==> c in UPPER
  {
    if 'A' <= c <= 'Z' { assert UPPER[c as int - 'A' as int] == c; }
  }

  lemma Digits(c: char)
    ensures '0' <= c <= '9' <==> c in "0123456789"
  {
    if '0' <= c <= '9' { assert "0123456789"[c as int - '0' as int] == c; }
  }

  /** The characters allowed in an identifier: letters, digits, hyphen and underscore. */
  lemma AllowedCharacters(c: char)
    ensures Allowed(c) <==> c in LOWER || c in UPPER || c in "0123456789" || c == '-' || c == '_'
  {
    LowerLetters(c);
    UpperLetters(c);
    Digits(c);
  }
}
