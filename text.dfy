/**
 * String helpers with the meaning JavaScript gives them in the controllers:
 * `String.prototype.includes`, `String.prototype.trim` and the truthiness
 * test `!field` applied to an optional string field of a request body.
 */
module Text {
  import opened Wrappers

  /** `t` occurs in `s` starting at index `i`. */
  predicate OccursAt(s: string, t: string, i: nat)
  {
    i + |t| <= |s| && s[i..i + |t|] == t
  }

  lemma OccursAtTail(s: string, t: string, k: nat)
    requires |s| > 0
    ensures OccursAt(s[1..], t, k) <==> OccursAt(s, t, k + 1)
  {
    if k + |t| <= |s| - 1 {
      assert s[1..][k..k + |t|] == s[k + 1..k + 1 + |t|];
    }
  }

  /** `s.includes(t)`, computed by scanning the start positions in turn. */
  function Contains(s: string, t: string): bool
    decreases |s|
  {
    if |t| > |s| then false
    else if OccursAt(s, t, 0) then true
    else Contains(s[1..], t)
  }

  /** `Contains(s, t)` holds exactly when `t` occurs in `s` at some position. */
  lemma {:induction false} ContainsMeaning(s: string, t: string)
    ensures Contains(s, t) <==> exists i: nat :: OccursAt(s, t, i)
    decreases |s|
  {
    if |t| <= |s| && !OccursAt(s, t, 0) {
      ContainsMeaning(s[1..], t);
      if Contains(s, t) {
        var k: nat :| OccursAt(s[1..], t, k);
        OccursAtTail(s, t, k);
      }
      if exists i: nat :: OccursAt(s, t, i) {
        var i: nat :| OccursAt(s, t, i);
        assert i > 0;
        OccursAtTail(s, t, i - 1);
      }
    }
  }

  /** A string that starts with `a + t` contains `t`. */
  lemma ContainsFromPrefix(s: string, a: string, t: string)
    requires |a + t| <= |s| && s[..|a + t|] == a + t
    ensures Contains(s, t)
  {
    assert s[|a|..|a| + |t|] == (a + t)[|a|..] == t;
    assert OccursAt(s, t, |a|);
    ContainsMeaning(s, t);
  }

  /** The pieces joined in order. */
  function Concat(parts: seq<string>): string
    decreases |parts|
  {
    if parts == [] then "" else parts[0] + Concat(parts[1..])
  }

  lemma {:induction false} ConcatSplit(parts: seq<string>, k: nat)
    requires k < |parts|
    decreases k
    ensures Concat(parts) == Concat(parts[..k]) + parts[k] + Concat(parts[k + 1..])
  {
    if k > 0 {
      ConcatSplit(parts[1..], k - 1);
      assert parts[1..][..k - 1] == parts[1..k];
      assert parts[1..][k..] == parts[k + 1..];
      assert parts[..k] == [parts[0]] + parts[1..k];
      assert Concat(parts[..k]) == parts[0] + Concat(parts[1..k]);
    } else {
      assert parts[..0] == [];
      assert parts[1..] == parts[k + 1..];
    }
  }

  /** Every piece occurs in the joined string. */
  lemma ConcatContainsPart(parts: seq<string>, k: nat)
    requires k < |parts|
    ensures Contains(Concat(parts), parts[k])
  {
    ConcatSplit(parts, k);
    var a := Concat(parts[..k]);
    var s := Concat(parts);
    assert s == (a + parts[k]) + Concat(parts[k + 1..]);
    assert s[..|a + parts[k]|] == a + parts[k];
    ContainsFromPrefix(s, a, parts[k]);
  }

  /**
   * The characters JavaScript's `trim` removes: the WhiteSpace code points
   * (tab, vertical tab, form feed, space, no-break space, byte-order mark and
   * the space separators of Unicode category Zs) and the LineTerminator code
   * points (line feed, carriage return, line and paragraph separators).
   */
  predicate IsWhiteSpace(c: char)
  {
    || c == '\t' || c == '\U{000B}' || c == '\U{000C}' || c == ' ' || c == '\U{00A0}' || c == '\U{FEFF}'
    || c == '\U{1680}' || ('\U{2000}' <= c <= '\U{200A}') || c == '\U{202F}' || c == '\U{205F}' || c == '\U{3000}'
    || c == '\n' || c == '\r' || c == '\U{2028}' || c == '\U{2029}'
  }

  /** Number of white-space characters at the start of `s`. */
  function LeadingWhiteSpace(s: string): (n: nat)
    ensures n <= |s|
    ensures forall i :: 0 <= i < n ==> IsWhiteSpace(s[i])
    ensures n < |s| ==> !IsWhiteSpace(s[n])
  {
    if |s| > 0 && IsWhiteSpace(s[0]) then 1 + LeadingWhiteSpace(s[1..]) else 0
  }

  /** Number of white-space characters at the end of `s`. */
  function TrailingWhiteSpace(s: string): (n: nat)
    ensures n <= |s|
    ensures forall i :: |s| - n <= i < |s| ==> IsWhiteSpace(s[i])
    ensures n < |s| ==> !IsWhiteSpace(s[|s| - 1 - n])
  {
    if |s| > 0 && IsWhiteSpace(s[|s| - 1]) then 1 + TrailingWhiteSpace(s[..|s| - 1]) else 0
  }

  /** Every character of `s` is white space. */
  predicate AllWhiteSpace(s: string)
  {
    forall k :: 0 <= k < |s| ==> IsWhiteSpace(s[k])
  }

  /**
   * `s.trim()`: `s` without its leading and trailing white space. The result
   * occurs in `s` between a white-space prefix and a white-space suffix, and
   * neither starts nor ends with white space.
   */
  function Trim(s: string): (r: string)
    ensures exists i: nat :: OccursAt(s, r, i) && AllWhiteSpace(s[..i]) && AllWhiteSpace(s[i + |r|..])
    ensures |r| > 0 ==> !IsWhiteSpace(r[0]) && !IsWhiteSpace(r[|r| - 1])
  {
    var i := LeadingWhiteSpace(s);
    var t := s[i..];
    var r := t[..|t| - TrailingWhiteSpace(t)];
    assert OccursAt(s, r, i);
    assert AllWhiteSpace(s[..i]);
    var suffix := s[i + |r|..];
    assert forall k :: 0 <= k < |suffix| ==> suffix[k] == t[|r| + k];
    r
  }

  /** Trimming twice is trimming once. */
  lemma TrimIdempotent(s: string)
    ensures Trim(Trim(s)) == Trim(s)
  {
    var r := Trim(s);
    if |r| > 0 {
      assert LeadingWhiteSpace(r) == 0;
      assert TrailingWhiteSpace(r) == 0;
    }
  }

  /** JavaScript truthiness of an optional string field: present and not `""`. */
  predicate Truthy(field: Option<string>)
  {
    field.Some? && |field.value| > 0
  }

  /**
   * JavaScript's `length`: the number of UTF-16 code units, two for a
   * character above U+FFFF (a surrogate pair), one for any other.
   */
  function Utf16Length(s: string): (n: nat)
    ensures |s| <= n <= 2 * |s|
    decreases |s|
  {
    if s == [] then 0 else (if s[0] > '\U{FFFF}' then 2 else 1) + Utf16Length(s[1..])
  }

  /** The two lengths agree exactly when no character needs a surrogate pair. */
  lemma {:induction false} Utf16LengthMatchesOnBmp(s: string)
    decreases |s|
    ensures Utf16Length(s) == |s| <==> forall i :: 0 <= i < |s| ==> s[i] <= '\U{FFFF}'
  {
    if s != [] {
      Utf16LengthMatchesOnBmp(s[1..]);
      assert forall i :: 1 <= i < |s| ==> s[i] == s[1..][i - 1];
    }
  }

  /** A book emoji followed by one letter: three code units, two characters. */
  lemma Utf16LengthExample()
    ensures Utf16Length("\U{1F4DA}a") == 3 && |"\U{1F4DA}a"| == 2
  {
    assert "\U{1F4DA}a"[1..] == "a";
    assert "a"[1..] == "";
  }
}
