/**
 * The Booking email pattern `/^\w+([.-]?\w+)*@\w+([.-]?\w+)*(\.\w{2,3})+$/`,
 * written group by group, and a direct description of the strings it accepts.
 */
module EmailPattern {
  import opened AsciiText

  /** `[.-]` */
  predicate IsSep(c: char) { c == '.' || c == '-' }

  /** `\w+` */
  predicate Words(s: string) { |s| > 0 && forall i :: 0 <= i < |s| ==> IsWord(s[i]) }

  /** `\w+([.-]?\w+)*`, read as the grammar  D ::= \w+ | D [.-]? \w+ */
  predicate Dotted(s: string)
    decreases |s|
  {
    Words(s)
    || exists j | 1 <= j < |s| :: Dotted(s[..j]) && (Words(s[j..]) || (IsSep(s[j]) && Words(s[j + 1..])))
  }

  /** `\.\w{2,3}` */
  predicate Tld(s: string) { (|s| == 3 || |s| == 4) && s[0] == '.' && Words(s[1..]) }

  /** `(\.\w{2,3})+`, read as  T ::= \.\w{2,3} | T \.\w{2,3} */
  predicate Tlds(s: string)
    decreases |s|
  {
    Tld(s) || exists j | 1 <= j < |s| :: Tlds(s[..j]) && Tld(s[j..])
  }

  /** The whole anchored pattern: local part, `@`, domain, one or more final segments. */
  predicate MatchesEmail(s: string)
  {
    exists i | 0 <= i < |s| :: s[i] == '@' && Dotted(s[..i])
      && exists j | i + 1 <= j <= |s| :: Dotted(s[i + 1..j]) && Tlds(s[j..])
  }

  /**
   * What `\w+([.-]?\w+)*` accepts, stated directly: word characters and separators,
   * beginning and ending with a word character, never two separators in a row.
   */
  predicate DottedShape(s: string)
  {
    |s| > 0 && IsWord(s[0]) && IsWord(s[|s| - 1])
    && (forall i :: 0 <= i < |s| ==> IsWord(s[i]) || IsSep(s[i]))
    && (forall i :: 0 <= i < |s| - 1 ==> IsWord(s[i]) || IsWord(s[i + 1]))
  }

  /** `local@domain.tld` with both parts in dotted shape and a final segment of 2 or 3 word characters. */
  predicate EmailShape(s: string)
  {
    exists i, j :: 0 <= i < j < |s| && s[i] == '@' && s[j] == '.'
      && DottedShape(s[..i]) && DottedShape(s[i + 1..j])
      && 2 <= |s| - j - 1 <= 3 && Words(s[j + 1..])
  }

  lemma {:induction false} DottedSound(s: string)
    requires Dotted(s)
    ensures DottedShape(s)
    decreases |s|
  {
    if !Words(s) {
      var j :| 1 <= j < |s| && Dotted(s[..j]) && (Words(s[j..]) || (IsSep(s[j]) && Words(s[j + 1..])));
      DottedSound(s[..j]);
      var p := s[..j];
      assert forall i :: 0 <= i < j ==> s[i] == p[i];
      if Words(s[j..]) {
        forall i | j <= i < |s| ensures IsWord(s[i]) {
          assert s[i] == s[j..][i - j];
        }
      } else {
        var w := s[j + 1..];
        assert Words(w);
        forall i | j + 1 <= i < |s| ensures IsWord(s[i]) {
          assert IsWord(w[i - j - 1]);
          assert s[i] == s[j + 1..][i - j - 1];
        }
      }
    }
  }

  lemma {:induction false} DottedComplete(s: string)
    requires DottedShape(s)
    ensures Dotted(s)
    decreases |s|
  {
    if !Words(s) {
      var n := |s|;
      assert n > 1;
      if IsWord(s[n - 2]) {
        var p := s[..n - 1];
        assert DottedShape(p);
        DottedComplete(p);
        assert Words(s[n - 1..]);
      } else {
        var p := s[..n - 2];
        assert n > 2;
        assert DottedShape(p);
        DottedComplete(p);
        assert Words(s[n - 1..]);
        assert s[n - 2 + 1..] == s[n - 1..];
      }
    }
  }

  /** `\w+([.-]?\w+)*` accepts exactly the strings in dotted shape. */
  lemma DottedExact(s: string)
    ensures Dotted(s) <==> DottedShape(s)
  {
    if Dotted(s) {
      DottedSound(s);
    }
    if DottedShape(s) {
      DottedComplete(s);
    }
  }

  /** Appending one final segment to a dotted string keeps it dotted. */
  lemma DottedShapeTld(x: string, t: string)
    requires DottedShape(x) && Tld(t)
    ensures DottedShape(x + t)
  {
    var s := x + t;
    forall i | 0 <= i < |s| ensures IsWord(s[i]) || IsSep(s[i]) {
      if i < |x| {
        assert s[i] == x[i];
      } else if i > |x| {
        assert s[i] == t[1..][i - |x| - 1];
      }
    }
    forall i | 0 <= i < |s| - 1 ensures IsWord(s[i]) || IsWord(s[i + 1]) {
      if i < |x| - 1 {
        assert s[i] == x[i] && s[i + 1] == x[i + 1];
      } else if i == |x| - 1 {
        assert s[i] == x[i];
      } else {
        assert s[i + 1] == t[1..][i - |x|];
      }
    }
    assert s[|s| - 1] == t[1..][|t| - 2];
  }

  lemma {:induction false} DottedShapeTlds(x: string, y: string)
    requires DottedShape(x) && Tlds(y)
    ensures DottedShape(x + y)
    decreases |y|
  {
    if Tld(y) {
      DottedShapeTld(x, y);
    } else {
      var j :| 1 <= j < |y| && Tlds(y[..j]) && Tld(y[j..]);
      DottedShapeTlds(x, y[..j]);
      DottedShapeTld(x + y[..j], y[j..]);
      assert x + y == (x + y[..j]) + y[j..];
    }
  }

  /** A dotted string followed by final segments is a dotted string followed by one final segment. */
  lemma TldsLast(x: string, y: string) returns (p: nat)
    requires DottedShape(x) && Tlds(y)
    ensures p < |y| && DottedShape(x + y[..p]) && Tld(y[p..])
  {
    if Tld(y) {
      p := 0;
      assert x + y[..0] == x;
    } else {
      var j :| 1 <= j < |y| && Tlds(y[..j]) && Tld(y[j..]);
      DottedShapeTlds(x, y[..j]);
      p := j;
    }
  }

  lemma EmailSound(s: string, i: nat, j: nat)
    requires i < |s| && s[i] == '@' && Dotted(s[..i])
    requires i + 1 <= j <= |s| && Dotted(s[i + 1..j]) && Tlds(s[j..])
    ensures EmailShape(s)
  {
    DottedSound(s[..i]);
    DottedSound(s[i + 1..j]);
    var p := TldsLast(s[i + 1..j], s[j..]);
    assert s[i + 1..j] + s[j..][..p] == s[i + 1..j + p];
    assert s[j..][p..] == s[j + p..];
    assert s[j + p..][1..] == s[j + p + 1..];
    assert 0 <= i < j + p < |s| && s[i] == '@' && s[j + p] == '.';
  }

  lemma EmailComplete(s: string, i: nat, j: nat)
    requires 0 <= i < j < |s| && s[i] == '@' && s[j] == '.'
    requires DottedShape(s[..i]) && DottedShape(s[i + 1..j])
    requires 2 <= |s| - j - 1 <= 3 && Words(s[j + 1..])
    ensures MatchesEmail(s)
  {
    DottedComplete(s[..i]);
    DottedComplete(s[i + 1..j]);
    assert s[j..][1..] == s[j + 1..];
    assert Tlds(s[j..]);
  }

  /** The pattern accepts exactly the strings of the form `local@domain.tld` described by EmailShape. */
  lemma EmailExact(s: string)
    ensures MatchesEmail(s) <==> EmailShape(s)
  {
    if MatchesEmail(s) {
      var i :| 0 <= i < |s| && s[i] == '@' && Dotted(s[..i])
        && exists j | i + 1 <= j <= |s| :: Dotted(s[i + 1..j]) && Tlds(s[j..]);
      var j :| i + 1 <= j <= |s| && Dotted(s[i + 1..j]) && Tlds(s[j..]);
      EmailSound(s, i, j);
    }
    if EmailShape(s) {
      var i, j :| 0 <= i < j < |s| && s[i] == '@' && s[j] == '.'
        && DottedShape(s[..i]) && DottedShape(s[i + 1..j])
        && 2 <= |s| - j - 1 <= 3 && Words(s[j + 1..]);
      EmailComplete(s, i, j);
    }
  }

  /** In the accepted shape no character other than the one at index i is an `@`. */
  lemma ShapeSingleAt(s: string, i: nat, j: nat, k: nat)
    requires 0 <= i < j < |s| && s[i] == '@' && s[j] == '.'
    requires DottedShape(s[..i]) && DottedShape(s[i + 1..j]) && Words(s[j + 1..])
    requires k < |s| && k != i
    ensures s[k] != '@'
  {
    if k < i {
      assert s[k] == s[..i][k];
    } else if i < k < j {
      assert s[k] == s[i + 1..j][k - i - 1];
    } else if k > j {
      assert s[k] == s[j + 1..][k - j - 1];
    }
  }

  /**
   * An accepted address has exactly one `@`, starts with a word character and ends
   * with `.` followed by two or three word characters.
   */
  lemma AcceptedEmailParts(s: string)
    requires MatchesEmail(s)
    ensures exists i :: 0 <= i < |s| && s[i] == '@' && forall k :: 0 <= k < |s| && s[k] == '@' ==> k == i
    ensures |s| > 0 && IsWord(s[0])
    ensures exists j :: 0 <= j < |s| && s[j] == '.' && 2 <= |s| - j - 1 <= 3 && Words(s[j + 1..])
  {
    EmailExact(s);
    var i, j :| 0 <= i < j < |s| && s[i] == '@' && s[j] == '.'
      && DottedShape(s[..i]) && DottedShape(s[i + 1..j])
      && 2 <= |s| - j - 1 <= 3 && Words(s[j + 1..]);
    forall k | 0 <= k < |s| && k != i ensures s[k] != '@' {
      ShapeSingleAt(s, i, j, k);
    }
    assert s[..i][0] == s[0];
  }

  lemma AcceptedExample(s: string, i: nat, j: nat)
    requires 0 <= i < j < |s| && s[i] == '@' && s[j] == '.'
    requires (forall k :: 0 <= k < |s| && k != i && k != j ==> IsWord(s[k]) || IsSep(s[k]))
    requires (forall k :: 0 <= k < |s| - 1 ==> IsWord(s[k]) || IsWord(s[k + 1]))
    requires IsWord(s[0]) && IsWord(s[i - 1]) && IsWord(s[i + 1]) && IsWord(s[j - 1])
    requires 2 <= |s| - j - 1 <= 3 && forall k :: j < k < |s| ==> IsWord(s[k])
    ensures MatchesEmail(s)
  {
    var l, d, t := s[..i], s[i + 1..j], s[j + 1..];
    assert forall k :: 0 <= k < |l| ==> l[k] == s[k];
    assert forall k :: 0 <= k < |d| ==> d[k] == s[i + 1 + k];
    assert forall k :: 0 <= k < |t| ==> t[k] == s[j + 1 + k];
    EmailComplete(s, i, j);
  }

  /** In an accepted address the part before the `@` is in dotted shape. */
  lemma AcceptedLocalPart(s: string, i: nat)
    requires MatchesEmail(s) && i < |s| && s[i] == '@'
    ensures DottedShape(s[..i])
  {
    EmailExact(s);
    var i0, j :| 0 <= i0 < j < |s| && s[i0] == '@' && s[j] == '.'
      && DottedShape(s[..i0]) && DottedShape(s[i0 + 1..j])
      && 2 <= |s| - j - 1 <= 3 && Words(s[j + 1..]);
    if i != i0 {
      ShapeSingleAt(s, i0, j, i);
    }
  }

  /** The address used in the booking examples is accepted. */
  lemma AcceptedPlain()
    ensures MatchesEmail("user@example.com")
  {
    AcceptedExample("user@example.com", 4, 12);
  }

  /** Dots, hyphens and several final segments are accepted. */
  lemma AcceptedDotted()
    ensures MatchesEmail("first.last-x@mail.co.uk")
  {
    AcceptedExample("first.last-x@mail.co.uk", 12, 20);
  }

  /** A string with no `@` is refused. */
  lemma RejectedNoAt()
    ensures !MatchesEmail("not-an-email")
  {
  }

  /** Two separators in a row before an `@` are refused. */
  lemma DoubleSepRejected(s: string, i: nat, k: nat)
    requires i < |s| && s[i] == '@' && k + 1 < i && IsSep(s[k]) && IsSep(s[k + 1])
    ensures !MatchesEmail(s)
  {
    if MatchesEmail(s) {
      AcceptedLocalPart(s, i);
    }
  }

  lemma RejectedDoubleDot()
    ensures !MatchesEmail("a..b@example.com")
  {
    DoubleSepRejected("a..b@example.com", 4, 1);
  }

  /** A final segment of a single character is refused. */
  lemma RejectedShortTld()
    ensures !MatchesEmail("user@example.c")
  {
    if MatchesEmail("user@example.c") {
      AcceptedEmailParts("user@example.c");
    }
  }
}
