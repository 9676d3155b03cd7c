/** The string operations of the Rust standard library that the server's parsers and normalisers are built from. */
module Text {
  import opened Wrappers

  /** Unicode White_Space, the characters that trimming removes. */
  predicate IsSpace(c: char) {
    || '\t' <= c <= '\r'
    || c == ' '
    || c == '\U{85}'
    || c == '\U{a0}'
    || c == '\U{1680}'
    || '\U{2000}' <= c <= '\U{200a}'
    || c == '\U{2028}'
    || c == '\U{2029}'
    || c == '\U{202f}'
    || c == '\U{205f}'
    || c == '\U{3000}'
  }

  function TrimStart(s: string): (r: string) {
    if s != [] && IsSpace(s[0]) then TrimStart(s[1..]) else s
  }

  function TrimEnd(s: string): (r: string) {
    if s != [] && IsSpace(s[|s| - 1]) then TrimEnd(s[..|s| - 1]) else s
  }

  function Trim(s: string): (r: string) {
    TrimEnd(TrimStart(s))
  }

  /** No white space at either end. */
  predicate IsTrimmed(s: string) {
    s == [] || (!IsSpace(s[0]) && !IsSpace(s[|s| - 1]))
  }

  lemma TrimStartFirst(s: string)
    ensures TrimStart(s) == [] || !IsSpace(TrimStart(s)[0])
  {
  }

  lemma {:induction false} TrimEndKeepsFirst(s: string)
    ensures TrimEnd(s) <= s
    ensures TrimEnd(s) == [] || !IsSpace(TrimEnd(s)[|TrimEnd(s)| - 1])
  {
    if s != [] && IsSpace(s[|s| - 1]) {
      TrimEndKeepsFirst(s[..|s| - 1]);
    }
  }

  lemma TrimIsTrimmed(s: string)
    ensures IsTrimmed(Trim(s))
  {
    TrimStartFirst(s);
    TrimEndKeepsFirst(TrimStart(s));
  }

  lemma TrimOfTrimmed(s: string)
    requires IsTrimmed(s)
    ensures Trim(s) == s
  {
    assert TrimStart(s) == s;
  }

  lemma TrimIdempotent(s: string)
    ensures Trim(Trim(s)) == Trim(s)
  {
    TrimIsTrimmed(s);
    TrimOfTrimmed(Trim(s));
  }

  predicate IsBlank(s: string) {
    Trim(s) == ""
  }

  predicate IsLowerLetter(c: char) { 'a' <= c <= 'z' }
  predicate IsUpperLetter(c: char) { 'A' <= c <= 'Z' }
  predicate IsDigit(c: char) { '0' <= c <= '9' }
  predicate IsLetter(c: char) { IsLowerLetter(c) || IsUpperLetter(c) }

  function LowerChar(c: char): char {
    if IsUpperLetter(c) then c - 'A' + 'a' else c
  }

  function UpperChar(c: char): char {
    if IsLowerLetter(c) then c - 'a' + 'A' else c
  }

  function MapChars(f: char -> char, s: string): (r: string)
    ensures |r| == |s|
    ensures forall i :: 0 <= i < |s| ==> r[i] == f(s[i])
  {
    seq(|s|, i requires 0 <= i < |s| => f(s[i]))
  }

  function Lower(s: string): string {
    MapChars(LowerChar, s)
  }

  function Upper(s: string): string {
    MapChars(UpperChar, s)
  }

  lemma LowerIdempotent(s: string)
    ensures Lower(Lower(s)) == Lower(s)
  {
  }

  lemma UpperIdempotent(s: string)
    ensures Upper(Upper(s)) == Upper(s)
  {
  }

  /** ASCII case folding never creates or removes white space at the ends. */
  lemma CaseKeepsTrimmed(s: string)
    requires IsTrimmed(s)
    ensures IsTrimmed(Lower(s)) && IsTrimmed(Upper(s))
  {
  }

  predicate EqualIgnoreCase(a: string, b: string) {
    Lower(a) == Lower(b)
  }

  predicate StartsWith(s: string, prefix: string) {
    prefix <= s
  }

  predicate EndsWith(s: string, suffix: string) {
    |suffix| <= |s| && s[|s| - |suffix|..] == suffix
  }

  predicate Contains(s: string, part: string) {
    part <= s || (s != [] && Contains(s[1..], part))
  }

  function ReplaceChar(c: char, from: set<char>, to: char): char {
    if c in from then to else c
  }

  /** `normalize_optional` and its kin: trim, and treat what is left blank as absent. */
  function TrimToOption(value: Option<string>): (r: Option<string>) {
    match value
    case None => None
    case Some(s) => if Trim(s) == "" then None else Some(Trim(s))
  }

  lemma TrimToOptionIdempotent(value: Option<string>)
    ensures TrimToOption(TrimToOption(value)) == TrimToOption(value)
  {
    if value.Some? {
      TrimIdempotent(value.value);
    }
  }
}
