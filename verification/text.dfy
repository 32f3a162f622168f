/** Text primitives the fixed-column reader is built from: whitespace trimming,
    `std::string::substr`, `std::string::find`, and the numeric text conversions. */
module Text {
  import opened Wrappers
  import opened Machine

  /** `isspace` in the C locale. */
  predicate IsSpace(c: char) {
    c == ' ' || c == '\t' || c == '\n' || c == '\U{B}' || c == '\U{C}' || c == '\r'
  }

  predicate AllSpace(s: string) {
    forall i | 0 <= i < |s| :: IsSpace(s[i])
  }

  function TrimLeft(s: string): string
    decreases |s|
  {
    if s != [] && IsSpace(s[0]) then TrimLeft(s[1..]) else s
  }

  function TrimRight(s: string): string
    decreases |s|
  {
    if s != [] && IsSpace(s[|s| - 1]) then TrimRight(s[..|s| - 1]) else s
  }

  /** `boost::algorithm::trim`: `s` with its leading and trailing whitespace removed. */
  function Trim(s: string): string {
    TrimRight(TrimLeft(s))
  }

  /** `TrimLeft` drops a whitespace prefix, and all of it. */
  lemma {:induction false} TrimLeftDropsLeadingSpace(s: string)
    ensures |TrimLeft(s)| <= |s| && TrimLeft(s) == s[|s| - |TrimLeft(s)|..]
    ensures AllSpace(s[..|s| - |TrimLeft(s)|])
    ensures TrimLeft(s) != [] ==> !IsSpace(TrimLeft(s)[0])
    decreases |s|
  {
    if s != [] && IsSpace(s[0]) {
      TrimLeftDropsLeadingSpace(s[1..]);
      var r := TrimLeft(s[1..]);
      assert s[..|s| - |r|] == [s[0]] + s[1..][..|s[1..]| - |r|];
    }
  }

  /** `TrimRight` drops a whitespace suffix, and all of it. */
  lemma {:induction false} TrimRightDropsTrailingSpace(s: string)
    ensures |TrimRight(s)| <= |s| && TrimRight(s) == s[..|TrimRight(s)|]
    ensures AllSpace(s[|TrimRight(s)|..])
    ensures TrimRight(s) != [] ==> !IsSpace(TrimRight(s)[|TrimRight(s)| - 1])
    decreases |s|
  {
    if s != [] && IsSpace(s[|s| - 1]) {
      var t := s[..|s| - 1];
      TrimRightDropsTrailingSpace(t);
      var r := TrimRight(t);
      assert s[|r|..] == t[|r|..] + [s[|s| - 1]];
    }
  }

  /** What `Trim` removes is whitespace at the two ends and nothing else: the result
      is an infix of `s`, starts and ends with a non-space, and is empty exactly when
      `s` is all whitespace. */
  lemma TrimRemovesOuterSpace(s: string)
    ensures var r := Trim(s);
      && (exists a | 0 <= a <= |s| - |r| :: r == s[a..a + |r|] && AllSpace(s[..a]) && AllSpace(s[a + |r|..]))
      && (r != [] ==> !IsSpace(r[0]) && !IsSpace(r[|r| - 1]))
      && (r == [] <==> AllSpace(s))
  {
    TrimLeftDropsLeadingSpace(s);
    var l := TrimLeft(s);
    TrimRightDropsTrailingSpace(l);
    var r := TrimRight(l);
    var a := |s| - |l|;
    assert s[a..a + |r|] == l[..|r|];
    assert s[a + |r|..] == l[|r|..];
    assert r == [] ==> s[..|s| - |l|] == s;
  }

  function Min(a: int, b: int): int {
    if a <= b then a else b
  }

  /** `s.substr(pos, len)`: at most `len` characters from `pos`; `std::out_of_range`
      (here `None`) when `pos` is past the end. */
  function Substr(s: string, pos: nat, len: nat): (r: Option<string>)
    ensures r.Some? <==> pos <= |s|
    ensures r.Some? ==> |r.value| == Min(len, |s| - pos) && r.value == s[pos..Min(pos + len, |s|)]
  {
    if pos > |s| then None else Some(s[pos..Min(pos + len, |s|)])
  }

  /** `pat` occurs in `s` starting at position `k`. */
  predicate Occurs(s: string, pat: string, k: nat) {
    k + |pat| <= |s| && s[k..k + |pat|] == pat
  }

  function FindFrom(s: string, pat: string, k: nat): (r: Option<nat>)
    requires k <= |s|
    ensures r.Some? ==> k <= r.value && Occurs(s, pat, r.value)
    ensures r.Some? ==> forall i | k <= i < r.value :: !Occurs(s, pat, i)
    ensures r.None? ==> forall i | k <= i :: !Occurs(s, pat, i)
    decreases |s| - k
  {
    if Occurs(s, pat, k) then Some(k)
    else if k == |s| then None
    else FindFrom(s, pat, k + 1)
  }

  /** `s.find(pat)`: the first position where `pat` occurs, `None` for `npos`. */
  function Find(s: string, pat: string): (r: Option<nat>)
    ensures r.Some? ==> Occurs(s, pat, r.value) && forall i | 0 <= i < r.value :: !Occurs(s, pat, i)
    ensures r.None? <==> forall i :: !Occurs(s, pat, i)
  {
    FindFrom(s, pat, 0)
  }

  /** Outcome of one `stream >> double` on the text `s` still unread in the stream.
      `NothingLeft`: only whitespace remained, the sentry failed and the target is untouched.
      `Malformed`: a token was there but is not a number; since C++11 the target is set to 0. */
  datatype Extraction = Extracted(value: real, rest: string) | NothingLeft | Malformed

  /** The numeric text conversions the reader relies on, left abstract:
      `extractReal` is `istream >> double`, `extractUnsigned` is `istream >> unsigned int`,
      `strtod` and `atoi` are the C library functions (0 when nothing converts). */
  datatype NumericText = NumericText(
    extractReal: string -> Extraction,
    extractUnsigned: string -> Option<uint32>,
    strtod: string -> real,
    atoi: string -> int32)
}
