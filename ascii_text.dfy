/**
 * ASCII string primitives shared by the Event and Booking schemas:
 * JavaScript's `toLowerCase`, `trim`, and the regular-expression classes
 * `\w` and `\s`, all restricted to ASCII.
 */
module AsciiText {
  import opened Wrappers

  /** Mongoose's `required` on a string path: set and not empty. */
  predicate Present(v: Option<string>) { v.Some? && v.value != [] }

  /** `\s` and the characters `trim` removes (ASCII part): space, TAB, LF, VT, FF, CR. */
  predicate IsSpace(c: char) { c == ' ' || '\t' <= c <= '\r' }

  predicate IsUpper(c: char) { 'A' <= c <= 'Z' }
  predicate IsLowerLetter(c: char) { 'a' <= c <= 'z' }
  predicate IsDigit(c: char) { '0' <= c <= '9' }

  /** `\w`, which JavaScript defines as `[A-Za-z0-9_]`. */
  predicate IsWord(c: char) { IsUpper(c) || IsLowerLetter(c) || IsDigit(c) || c == '_' }

  function LowerChar(c: char): char { if IsUpper(c) then (c as int + 32) as char else c }

  lemma LowerCharKeepsClass(c: char)
    ensures IsSpace(LowerChar(c)) == IsSpace(c)
    ensures IsWord(LowerChar(c)) == IsWord(c)
    ensures !IsUpper(LowerChar(c))
  {
  }

  /** `toLowerCase` on ASCII. */
  function Lower(s: string): string { seq(|s|, i requires 0 <= i < |s| => LowerChar(s[i])) }

  predicate NoUpper(s: string) { forall i :: 0 <= i < |s| ==> !IsUpper(s[i]) }

  predicate AllSpace(s: string) { forall i :: 0 <= i < |s| ==> IsSpace(s[i]) }

  /** Neither end of `s` is whitespace. */
  predicate NoEdgeSpace(s: string) { s != [] ==> !IsSpace(s[0]) && !IsSpace(s[|s| - 1]) }

  function TrimStart(s: string): string
  {
    if s != [] && IsSpace(s[0]) then TrimStart(s[1..]) else s
  }

  function TrimEnd(s: string): string
  {
    if s != [] && IsSpace(s[|s| - 1]) then TrimEnd(s[..|s| - 1]) else s
  }

  /** Trimming the front drops a prefix of whitespace and stops at a non-space. */
  lemma {:induction false} TrimStartSpec(s: string)
    ensures var r := TrimStart(s);
      |r| <= |s| && r == s[|s| - |r|..] && AllSpace(s[..|s| - |r|])
      && (r != [] ==> !IsSpace(r[0]))
    decreases |s|
  {
    if s != [] && IsSpace(s[0]) {
      TrimStartSpec(s[1..]);
      var r := TrimStart(s);
      assert s[1..][|s| - 1 - |r|..] == s[|s| - |r|..];
      forall i | 0 <= i < |s| - |r| ensures IsSpace(s[i]) {
        if i > 0 {
          assert s[i] == s[1..][..|s| - 1 - |r|][i - 1];
        }
      }
    }
  }

  /** Trimming the back drops a suffix of whitespace and stops at a non-space. */
  lemma {:induction false} TrimEndSpec(s: string)
    ensures var r := TrimEnd(s);
      |r| <= |s| && r == s[..|r|] && AllSpace(s[|r|..])
      && (r != [] ==> !IsSpace(r[|r| - 1]))
    decreases |s|
  {
    if s != [] && IsSpace(s[|s| - 1]) {
      var p := s[..|s| - 1];
      TrimEndSpec(p);
      var r := TrimEnd(s);
      assert p[..|r|] == s[..|r|];
      forall i | |r| <= i < |s| ensures IsSpace(s[i]) {
        if i < |s| - 1 {
          assert s[i] == p[|r|..][i - |r|];
        }
      }
    }
  }

  /** A string of whitespace only trims to nothing. */
  lemma {:induction false} TrimAllSpace(s: string)
    requires AllSpace(s)
    ensures TrimStart(s) == [] && Trim(s) == []
    decreases |s|
  {
    if s != [] {
      TrimAllSpace(s[1..]);
    }
  }

  /** `trim`: drop leading and trailing whitespace. */
  function Trim(s: string): string { TrimEnd(TrimStart(s)) }

  /** Trim removes exactly the whitespace at both ends and keeps the middle slice. */
  lemma TrimIsSlice(s: string) returns (lo: nat, hi: nat)
    ensures lo <= hi <= |s| && Trim(s) == s[lo..hi]
    ensures AllSpace(s[..lo]) && AllSpace(s[hi..])
    ensures NoEdgeSpace(Trim(s))
  {
    TrimStartSpec(s);
    var a := TrimStart(s);
    TrimEndSpec(a);
    var b := TrimEnd(a);
    lo := |s| - |a|;
    hi := lo + |b|;
    assert a == s[lo..];
    assert b == a[..|b|];
    assert b == s[lo..hi];
    assert a[|b|..] == s[hi..];
  }

  /** A string without whitespace at its ends is its own trim. */
  lemma TrimNoEdge(s: string)
    requires NoEdgeSpace(s)
    ensures Trim(s) == s
  {
  }

  lemma TrimIdempotent(s: string)
    ensures Trim(Trim(s)) == Trim(s)
  {
    var _, _ := TrimIsSlice(s);
    TrimNoEdge(Trim(s));
  }

  lemma LowerSlice(s: string, lo: nat, hi: nat)
    requires lo <= hi <= |s|
    ensures Lower(s[lo..hi]) == Lower(s)[lo..hi]
  {
  }

  lemma {:induction false} TrimStartLower(s: string)
    ensures TrimStart(Lower(s)) == Lower(TrimStart(s))
    decreases |s|
  {
    var l := Lower(s);
    if s != [] && IsSpace(s[0]) {
      LowerCharKeepsClass(s[0]);
      assert l[1..] == Lower(s[1..]);
      calc {
        TrimStart(l);
        TrimStart(l[1..]);
        { TrimStartLower(s[1..]); }
        Lower(TrimStart(s[1..]));
      }
    } else if s != [] {
      LowerCharKeepsClass(s[0]);
      assert !IsSpace(l[0]);
    }
  }

  lemma {:induction false} TrimEndLower(s: string)
    ensures TrimEnd(Lower(s)) == Lower(TrimEnd(s))
    decreases |s|
  {
    var l := Lower(s);
    if s != [] && IsSpace(s[|s| - 1]) {
      LowerSlice(s, 0, |s| - 1);
      LowerCharKeepsClass(s[|s| - 1]);
      calc {
        TrimEnd(l);
        TrimEnd(l[..|l| - 1]);
        { TrimEndLower(s[..|s| - 1]); }
        Lower(TrimEnd(s[..|s| - 1]));
      }
    } else if s != [] {
      LowerCharKeepsClass(s[|s| - 1]);
      assert !IsSpace(l[|l| - 1]);
    }
  }

  /** Lower-casing never creates or removes whitespace, so it commutes with trim. */
  lemma LowerTrimCommute(s: string)
    ensures Trim(Lower(s)) == Lower(Trim(s))
  {
    TrimStartLower(s);
    TrimEndLower(TrimStart(s));
  }

  /** A string without upper-case letters is its own lower-case form. */
  lemma LowerNoUpper(s: string)
    requires NoUpper(s)
    ensures Lower(s) == s
  {
  }

  /** The lower-case form has no upper-case letter and keeps non-space edges. */
  lemma LowerShape(s: string)
    ensures NoUpper(Lower(s))
    ensures NoEdgeSpace(s) ==> NoEdgeSpace(Lower(s))
  {
    forall i | 0 <= i < |s| ensures !IsUpper(Lower(s)[i]) {
      LowerCharKeepsClass(s[i]);
    }
    if s != [] {
      LowerCharKeepsClass(s[0]);
      LowerCharKeepsClass(s[|s| - 1]);
    }
  }
}
