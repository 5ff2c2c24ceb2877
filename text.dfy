/** The few string operations the client relies on, with Python's meaning:
    `sub in s`, `s.endswith(suffix)` and `s.replace(':', ':/')`. */
module Text {

  predicate StartsWith(s: string, prefix: string) {
    |prefix| <= |s| && s[..|prefix|] == prefix
  }

  predicate EndsWith(s: string, suffix: string) {
    |suffix| <= |s| && s[|s| - |suffix|..] == suffix
  }

  /** `sub` occurs in `s` starting at index `i`. */
  predicate OccursAt(s: string, sub: string, i: int) {
    0 <= i && i + |sub| <= |s| && s[i..i + |sub|] == sub
  }

  /** Python's `sub in s`, decided by scanning `s` from the left. */
  predicate Contains(s: string, sub: string)
    decreases |s|
  {
    StartsWith(s, sub) || (|s| > 0 && Contains(s[1..], sub))
  }

  /** The scan finds `sub` exactly when it occurs at some index. */
  lemma {:induction false} ContainsIffOccurs(s: string, sub: string)
    ensures Contains(s, sub) <==> exists i :: OccursAt(s, sub, i)
    decreases |s|
  {
    if StartsWith(s, sub) {
      assert OccursAt(s, sub, 0);
    }
    if |s| > 0 {
      ContainsIffOccurs(s[1..], sub);
      if Contains(s[1..], sub) {
        var j :| OccursAt(s[1..], sub, j);
        assert s[1..][j..j + |sub|] == s[j + 1..j + 1 + |sub|];
        assert OccursAt(s, sub, j + 1);
      }
      if exists i :: OccursAt(s, sub, i) {
        var i :| OccursAt(s, sub, i);
        if i > 0 {
          assert s[1..][i - 1..i - 1 + |sub|] == s[i..i + |sub|];
          assert OccursAt(s[1..], sub, i - 1);
        } else {
          assert StartsWith(s, sub);
        }
      }
    } else {
      if exists i :: OccursAt(s, sub, i) {
        var i :| OccursAt(s, sub, i);
        assert sub == [];
        assert StartsWith(s, sub);
      }
    }
  }

  /** Python's `s.replace(':', ':/')`: every colon is followed by a slash. */
  function ColonSlash(s: string): string
  {
    if s == [] then []
    else (if s[0] == ':' then ":/" else [s[0]]) + ColonSlash(s[1..])
  }

  /** The rewrite adds exactly one character per colon. */
  lemma {:induction false} ColonSlashLength(s: string)
    ensures |ColonSlash(s)| == |s| + multiset(s)[':']
  {
    if s != [] {
      ColonSlashLength(s[1..]);
      assert s == [s[0]] + s[1..];
      assert multiset(s) == multiset([s[0]]) + multiset(s[1..]);
    }
  }

  /** In the rewritten name every colon is followed by a slash. */
  lemma {:induction false} ColonSlashMarksColons(s: string)
    ensures var r := ColonSlash(s);
      && (|r| > 0 ==> r[|r| - 1] != ':')
      && forall i, j :: 0 <= i && j == i + 1 && j < |r| && r[i] == ':' ==> r[j] == '/'
  {
    if s != [] {
      ColonSlashMarksColons(s[1..]);
      var head: string := if s[0] == ':' then ":/" else [s[0]];
      var tail := ColonSlash(s[1..]);
      var r := head + tail;
      assert ColonSlash(s) == r;
      forall i, j | 0 <= i && j == i + 1 && j < |r| && r[i] == ':'
        ensures r[j] == '/'
      {
        if i >= |head| {
          assert r[i] == tail[i - |head|];
          assert r[j] == tail[j - |head|];
        }
      }
    }
  }

  /** Undoes the rewrite: drops the slash after each colon. */
  function Unslash(s: string): string
    decreases |s|
  {
    if s == [] then []
    else if s[0] == ':' && |s| >= 2 && s[1] == '/' then ":" + Unslash(s[2..])
    else [s[0]] + Unslash(s[1..])
  }

  /** The rewrite loses nothing: the original project name can be read back. */
  lemma {:induction false} UnslashColonSlash(s: string)
    ensures Unslash(ColonSlash(s)) == s
  {
    if s != [] {
      UnslashColonSlash(s[1..]);
      var t := ColonSlash(s);
      if s[0] == ':' {
        assert t == ":/" + ColonSlash(s[1..]);
        assert t[2..] == ColonSlash(s[1..]);
      } else {
        assert t == [s[0]] + ColonSlash(s[1..]);
        assert t[1..] == ColonSlash(s[1..]);
      }
    }
  }

  /** The rewrite works character by character, so it distributes over concatenation. */
  lemma {:induction false} ColonSlashAppend(a: string, b: string)
    ensures ColonSlash(a + b) == ColonSlash(a) + ColonSlash(b)
  {
    if a != [] {
      assert (a + b)[1..] == a[1..] + b;
      ColonSlashAppend(a[1..], b);
    } else {
      assert a + b == b;
    }
  }

  /** A name without colons is left unchanged. */
  lemma {:induction false} ColonSlashNoColon(s: string)
    requires ':' !in s
    ensures ColonSlash(s) == s
  {
    if s != [] {
      assert ':' !in s[1..];
      ColonSlashNoColon(s[1..]);
    }
  }
  /** A three-level project name `a:b:c` is published under `a:/b:/c`. */
  lemma {:induction false} ColonSlashThreeLevels(a: string, b: string, c: string)
    requires ':' !in a && ':' !in b && ':' !in c
    ensures ColonSlash(a + ":" + b + ":" + c) == a + ":/" + b + ":/" + c
  {
    ColonSlashNoColon(a);
    ColonSlashNoColon(b);
    ColonSlashNoColon(c);
    assert ColonSlash(":") == ":/";
    ColonSlashAppend(a + ":" + b + ":", c);
    ColonSlashAppend(a + ":" + b, ":");
    ColonSlashAppend(a + ":", b);
    ColonSlashAppend(a, ":");
  }
}
