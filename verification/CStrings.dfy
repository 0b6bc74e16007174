// Text as the C sources see it: reading one past the end gives NUL.
module CStrings {

  datatype Option<+T> = None | Some(value: T)

  const NUL: char := '\0'

  // s[i] in C, for an index that may be the terminating NUL.
  function At(s: string, i: nat): char {
    if i < |s| then s[i] else NUL
  }

  // isspace in the C locale.
  predicate IsSpace(c: char) {
    c == ' ' || c == '\t' || c == '\n' || c == '\r' || c == '\U{0B}' || c == '\U{0C}'
  }

  predicate IsDigit(c: char) {
    '0' <= c <= '9'
  }

  predicate IsAlpha(c: char) {
    'a' <= c <= 'z' || 'A' <= c <= 'Z'
  }

  predicate IsNameChar(c: char) {
    IsAlpha(c) || IsDigit(c) || c == '_'
  }

  predicate IsQuote(c: char) {
    c == '"' || c == '\''
  }

  // The four blanks that the evaluator and the configuration file know.
  predicate IsBlank(c: char) {
    c == ' ' || c == '\t' || c == '\r' || c == '\n'
  }

  function SkipBlanks(s: string): (r: string)
    ensures |r| <= |s| && (r != [] ==> !IsBlank(r[0]))
  {
    if s != [] && IsBlank(s[0]) then SkipBlanks(s[1..]) else s
  }

  // s has t at i.
  predicate HasAt(s: string, i: nat, t: string) {
    i + |t| <= |s| && s[i..i + |t|] == t
  }

  // Where c first occurs; the length when it does not.
  function IndexOf(s: string, c: char): (r: nat)
    ensures r <= |s| && (r < |s| ==> s[r] == c)
    ensures forall k :: 0 <= k < r ==> s[k] != c
  {
    if s == [] || s[0] == c then 0 else 1 + IndexOf(s[1..], c)
  }

  // How much fgets takes with a buffer of this size: a line with its newline, or what fits.
  function ReadLen(text: string, size: nat): (r: nat)
    requires text != [] && size > 1
    ensures 0 < r <= |text| && r < size
  {
    var k := IndexOf(text, '\n');
    var e := if k < |text| then k + 1 else |text|;
    if e > size - 1 then size - 1 else e
  }

  // The string in the buffer: what was read, up to a NUL if there is one in the file.
  function BufferText(chunk: string): string {
    chunk[..IndexOf(chunk, NUL)]
  }
}
