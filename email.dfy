/** The e-mail check shared by the registration and login forms: the
    regular expression ^[^\s@]+@[^\s@]+\.[^\s@]+$ (with \s read as ASCII
    whitespace). */
module Email {
  import opened Text

  /** A character of the class [^\s@]. */
  predicate Plain(c: char)
  {
    !IsSpace(c) && c != '@'
  }

  predicate AllPlain(s: string)
  {
    forall k :: 0 <= k < |s| ==> Plain(s[k])
  }

  /** The pattern read directly: s is A "@" B "." C with A, B and C
      non-empty runs of [^\s@] (B may itself contain dots). */
  ghost predicate MatchesPattern(s: string)
  {
    exists i, j :: 0 < i && i + 1 < j && j + 1 < |s| && s[i] == '@' && s[j] == '.'
                   && AllPlain(s[..i]) && AllPlain(s[i + 1..j]) && AllPlain(s[j + 1..])
  }

  /** The index of the first c in s, or |s| when there is none. */
  function IndexOf(s: string, c: char): (n: nat)
    ensures n <= |s|
    ensures n < |s| ==> s[n] == c
    ensures forall k :: 0 <= k < n ==> s[k] != c
  {
    if s == [] then 0 else if s[0] == c then 0 else 1 + IndexOf(s[1..], c)
  }

  /** isValidEmail, computed by scanning: no whitespace anywhere, a first
      '@' that is not the first character and is the only one, and a '.'
      in the domain after it that is neither its first nor its last
      character. */
  predicate IsValidEmail(s: string)
  {
    var i := IndexOf(s, '@');
    && 0 < i < |s|
    && (forall k :: 0 <= k < |s| ==> !IsSpace(s[k]))
    && var d := s[i + 1..];
       && '@' !in d
       && 2 <= |d| && '.' in d[1..|d| - 1]
  }

  /** What the scanner accepts, the pattern matches. */
  lemma ValidEmailMatches(s: string)
    requires IsValidEmail(s)
    ensures MatchesPattern(s)
  {
    var i := IndexOf(s, '@');
    var d := s[i + 1..];
    var e := d[1..|d| - 1];
    var t := IndexOf(e, '.');
    var j := i + 2 + t;
    assert s[j] == e[t];
    var a, b, c := s[..i], s[i + 1..j], s[j + 1..];
    assert AllPlain(a) by {
      forall k | 0 <= k < |a|
        ensures Plain(a[k])
      {
        assert a[k] == s[k];
      }
    }
    assert AllPlain(b) by {
      forall k | 0 <= k < |b|
        ensures Plain(b[k])
      {
        assert b[k] == d[k];
      }
    }
    assert AllPlain(c) by {
      forall k | 0 <= k < |c|
        ensures Plain(c[k])
      {
        assert c[k] == d[t + 2 + k];
      }
    }
  }

  /** In a string of the pattern's shape, every character but the '@' at
      position i is of the class [^\s@]. */
  lemma PlainOutsideAt(s: string, i: nat, j: nat)
    requires 0 < i && i + 1 < j && j + 1 < |s| && s[j] == '.'
    requires AllPlain(s[..i]) && AllPlain(s[i + 1..j]) && AllPlain(s[j + 1..])
    ensures forall k :: 0 <= k < |s| && k != i ==> Plain(s[k])
  {
    var a, b, c := s[..i], s[i + 1..j], s[j + 1..];
    forall k | 0 <= k < |s| && k != i
      ensures Plain(s[k])
    {
      if k < i {
        assert s[k] == a[k];
      } else if k < j {
        assert s[k] == b[k - i - 1];
      } else if k > j {
        assert s[k] == c[k - j - 1];
      }
    }
  }

  /** What the pattern matches, the scanner accepts. */
  lemma MatchesValidEmail(s: string)
    requires MatchesPattern(s)
    ensures IsValidEmail(s)
  {
    var i, j :| 0 < i && i + 1 < j && j + 1 < |s| && s[i] == '@' && s[j] == '.'
                && AllPlain(s[..i]) && AllPlain(s[i + 1..j]) && AllPlain(s[j + 1..]);
    PlainOutsideAt(s, i, j);
    assert IndexOf(s, '@') == i;
    var d := s[i + 1..];
    assert '@' !in d by {
      forall k | 0 <= k < |d|
        ensures d[k] != '@'
      {
        assert d[k] == s[i + 1 + k];
      }
    }
    assert d[1..|d| - 1][j - i - 2] == s[j];
  }

  /** The scanning check accepts exactly the strings the pattern matches. */
  lemma IsValidEmailMatchesPattern(s: string)
    ensures IsValidEmail(s) <==> MatchesPattern(s)
  {
    if IsValidEmail(s) {
      ValidEmailMatches(s);
    }
    if MatchesPattern(s) {
      MatchesValidEmail(s);
    }
  }
}
