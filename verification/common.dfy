/**
 * Shared vocabulary of the model: Java's nullable references as `Option`,
 * and the string helpers the validators rely on (`String.trim()` and the
 * "null or blank" test written throughout the services).
 */
module Common {

  /** A nullable Java reference: `None` is `null`. */
  datatype Option<+T> = None | Some(value: T)

  /** Dates (`LocalDate`) and instants (`LocalDateTime`) are integers on one time line. */
  type Date = int
  type Instant = int

  /** `String.trim()` treats every character at or below U+0020 as removable. */
  predicate IsTrimmable(c: char) {
    c <= ' '
  }

  /** Drops leading trimmable characters. */
  function TrimStart(s: string): (r: string)
    ensures |r| <= |s|
    ensures r == s[|s| - |r|..]
    ensures r != [] ==> !IsTrimmable(r[0])
    ensures forall i :: 0 <= i < |s| - |r| ==> IsTrimmable(s[i])
  {
    if s == [] || !IsTrimmable(s[0]) then s else TrimStart(s[1..])
  }

  /** Drops trailing trimmable characters. */
  function TrimEnd(s: string): (r: string)
    ensures |r| <= |s|
    ensures r == s[..|r|]
    ensures r != [] ==> !IsTrimmable(r[|r| - 1])
    ensures forall i :: |r| <= i < |s| ==> IsTrimmable(s[i])
  {
    if s == [] || !IsTrimmable(s[|s| - 1]) then s else TrimEnd(s[..|s| - 1])
  }

  /**
   * `String.trim()`: the slice of `s` left once the trimmable characters at
   * both ends are cut; what remains starts and ends with a visible character.
   */
  function Trim(s: string): (r: string)
    ensures var a := |s| - |TrimStart(s)|;
      && a + |r| <= |s|
      && (forall i :: 0 <= i < |r| ==> r[i] == s[a + i])
      && (forall i :: 0 <= i < a ==> IsTrimmable(s[i]))
      && (forall i :: a + |r| <= i < |s| ==> IsTrimmable(s[i]))
    ensures r != [] ==> !IsTrimmable(r[0]) && !IsTrimmable(r[|r| - 1])
  {
    TrimSlice(s);
    TrimEnd(TrimStart(s))
  }

  /** Trimming the end of the trimmed start cuts only trimmable characters, and keeps a visible first one. */
  lemma {:induction false} TrimSlice(s: string)
    ensures var t := TrimStart(s); var r := TrimEnd(t); var a := |s| - |t|;
      && a + |r| <= |s|
      && (forall i :: 0 <= i < |r| ==> r[i] == s[a + i])
      && (forall i :: a + |r| <= i < |s| ==> IsTrimmable(s[i]))
      && (r != [] ==> !IsTrimmable(r[0]))
  {
    var t := TrimStart(s);
    var r := TrimEnd(t);
    var a := |s| - |t|;
    assert t == s[a..];
    assert r == t[..|r|];
    forall i | a + |r| <= i < |s|
      ensures IsTrimmable(s[i])
    {
      assert s[i] == t[i - a];
    }
    if r != [] {
      assert r[0] == t[0];
    }
  }

  /** Every character of `s` is trimmable (a blank string). */
  predicate AllTrimmable(s: string) {
    forall i :: 0 <= i < |s| ==> IsTrimmable(s[i])
  }

  /**
   * `s.trim()` is empty exactly when every character of `s` is at or below
   * U+0020; it follows from `Trim`'s contract.
   */
  lemma TrimEmptyIffAllTrimmable(s: string)
    ensures Trim(s) == [] <==> AllTrimmable(s)
  {
  }

  /**
   * The services' `x == null || x.trim().isEmpty()` test, stated through the
   * characters of `x`; `BlankIsNullOrTrimEmpty` shows it is the Java test.
   */
  predicate IsBlank(x: Option<string>) {
    x.None? || AllTrimmable(x.value)
  }

  /** `IsBlank` agrees with `x == null || x.trim().isEmpty()`. */
  lemma BlankIsNullOrTrimEmpty(x: Option<string>)
    ensures IsBlank(x) <==> x.None? || Trim(x.value) == []
  {
    if x.Some? {
      TrimEmptyIffAllTrimmable(x.value);
    }
  }

  /** Java's `String.valueOf` for a possibly-null string, as used by `"..." + id`. */
  function ShowNullable(x: Option<string>): (r: string)
    ensures x.Some? ==> r == x.value
  {
    if x.None? then "null" else x.value
  }
}
