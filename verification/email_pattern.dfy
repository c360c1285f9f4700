/**
 * The contact form's e-mail pattern `^[^\s@]+@[^\s@]+\.[^\s@]+$`, first as
 * the regular expression reads, then as a check on the string's shape, with
 * a proof that the two agree on every string.
 */
module EmailPattern {
  import opened Text

  /** The character class `[^\s@]`. */
  predicate InClass(c: char)
  {
    !IsSpace(c) && c != '@'
  }

  /** `[^\s@]*` over the whole of `t`. */
  predicate AllInClass(t: string)
  {
    forall i :: 0 <= i < |t| ==> InClass(t[i])
  }

  /**
   * What the anchored pattern accepts: `s` splits as `L @ D1 . D2` with the
   * three runs non-empty and drawn from `[^\s@]`; `a` is the position of the
   * `@`, `b` that of the `.` the pattern's `\.` matches.
   */
  predicate MatchesAt(s: string, a: int, b: int)
  {
    0 < a && a + 1 < b && b + 1 < |s|
    && s[a] == '@' && s[b] == '.'
    && AllInClass(s[..a]) && AllInClass(s[a + 1..b]) && AllInClass(s[b + 1..])
  }

  predicate Matches(s: string)
    ensures Matches(s) ==> |s| >= 5 && s[0] != '@' && s[|s| - 1] != '@'
  {
    exists a, b :: 0 <= a < |s| && 0 <= b < |s| && MatchesAt(s, a, b)
  }

  /** How many times `c` occurs in `s`. */
  function CountOf(s: string, c: char): nat
  {
    if s == [] then 0 else (if s[0] == c then 1 else 0) + CountOf(s[1..], c)
  }

  /** The position of the first `c` in `s`, or `|s|` when there is none. */
  function IndexOf(s: string, c: char): (k: nat)
    ensures k <= |s|
    ensures k < |s| ==> s[k] == c
    ensures forall i :: 0 <= i < k ==> s[i] != c
  {
    if s == [] then 0 else if s[0] == c then 0 else 1 + IndexOf(s[1..], c)
  }

  predicate NoSpace(s: string)
  {
    forall i :: 0 <= i < |s| ==> !IsSpace(s[i])
  }

  /** The domain has a `.` with at least one character on either side. */
  predicate HasInnerDot(d: string)
  {
    |d| >= 2 && '.' in d[1..|d| - 1]
  }

  /**
   * The shape of an address: no white space, exactly one `@`, a non-empty
   * part before it, and an inner `.` in the part after it.
   */
  predicate WellShaped(s: string)
  {
    NoSpace(s) && CountOf(s, '@') == 1
    && var k := IndexOf(s, '@');
       0 < k < |s| && HasInnerDot(s[k + 1..])
  }

  lemma {:induction false} CountOfAppend(s: string, t: string, c: char)
    ensures CountOf(s + t, c) == CountOf(s, c) + CountOf(t, c)
  {
    if s != [] {
      assert (s + t)[0] == s[0] && (s + t)[1..] == s[1..] + t;
      CountOfAppend(s[1..], t, c);
    } else {
      assert s + t == t;
    }
  }

  lemma {:induction false} CountOfAbsent(s: string, c: char)
    ensures CountOf(s, c) == 0 <==> c !in s
  {
    if s != [] {
      CountOfAbsent(s[1..], c);
      assert s == [s[0]] + s[1..];
    }
  }

  /** Splitting at position `k` counts the character there once. */
  lemma CountOfAround(s: string, k: nat, c: char)
    requires k < |s|
    ensures CountOf(s, c) == CountOf(s[..k], c) + (if s[k] == c then 1 else 0) + CountOf(s[k + 1..], c)
  {
    assert s == s[..k] + ([s[k]] + s[k + 1..]);
    CountOfAppend(s[..k], [s[k]] + s[k + 1..], c);
    CountOfAppend([s[k]], s[k + 1..], c);
  }

  /** The pattern accepts exactly the well-shaped addresses. */
  lemma PatternIsShape(s: string)
    ensures Matches(s) <==> WellShaped(s)
  {
    if Matches(s) {
      var a, b :| 0 <= a < |s| && 0 <= b < |s| && MatchesAt(s, a, b);
      MatchImpliesShape(s, a, b);
    }
    if WellShaped(s) {
      ShapeImpliesMatch(s);
    }
  }

  lemma MatchImpliesShape(s: string, a: int, b: int)
    requires MatchesAt(s, a, b)
    ensures WellShaped(s)
    ensures IndexOf(s, '@') == a
  {
    forall i | 0 <= i < |s| ensures !IsSpace(s[i]) {
      if i < a {
        assert s[i] == s[..a][i];
      } else if a < i < b {
        assert s[i] == s[a + 1..b][i - a - 1];
      } else if b < i {
        assert s[i] == s[b + 1..][i - b - 1];
      }
    }
    var d := s[a + 1..];
    assert d == s[a + 1..b] + [s[b]] + s[b + 1..];
    CountOfAbsent(s[..a], '@');
    CountOfAbsent(d, '@');
    CountOfAround(s, a, '@');
    var k := IndexOf(s, '@');
    assert k == a;
    assert d[1..|d| - 1][b - a - 2] == '.';
  }

  lemma ShapeImpliesMatch(s: string)
    requires WellShaped(s)
    ensures Matches(s)
  {
    var a := IndexOf(s, '@');
    var d := s[a + 1..];
    var j :| 0 <= j < |d| - 2 && d[1..|d| - 1][j] == '.';
    var b := a + 2 + j;
    assert s[b] == '.';
    CountOfAround(s, a, '@');
    CountOfAbsent(d, '@');
    assert AllInClass(s[..a]);
    assert AllInClass(s[a + 1..b]) by {
      forall i | a + 1 <= i < b ensures InClass(s[i]) {
        assert s[i] == d[i - a - 1];
      }
    }
    assert AllInClass(s[b + 1..]) by {
      forall i | b + 1 <= i < |s| ensures InClass(s[i]) {
        assert s[i] == d[i - a - 1];
      }
    }
    assert MatchesAt(s, a, b);
  }

  /** "a@b.com" is accepted. */
  lemma AcceptsSimpleAddress()
    ensures Matches("a@b.com")
  {
    var s := "a@b.com";
    assert s[..1] == "a" && s[2..3] == "b" && s[4..] == "com";
    assert AllInClass("a") && AllInClass("b") && AllInClass("com");
    assert MatchesAt(s, 1, 3);
  }

  /** "not-an-email" is rejected: it has no `@`. */
  lemma RejectsBareWord()
    ensures !Matches("not-an-email")
  {
  }

  /** An accepted address has no white space anywhere, so none at either end. */
  lemma MatchHasNoSpace(s: string)
    requires Matches(s)
    ensures NoSpace(s)
  {
  }
}
