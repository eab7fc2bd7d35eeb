/**
 Keys built by joining strings with ':' (`${tool}:${key}`, `${kind}:${environment}:${key}`).
 Joining is injective as long as the parts before the last one hold no ':' themselves.
 */
module ColonKeys {

  function Join(head: string, tail: string): string {
    head + ":" + tail
  }

  predicate ColonFree(s: string) {
    ':' !in s
  }

  /** `longer` is `shorter` followed by a ':' and anything. */
  predicate ExtendsByColon(shorter: string, longer: string) {
    |shorter| < |longer| && shorter == longer[..|shorter|] && longer[|shorter|] == ':'
  }

  lemma JoinedHeads(a: string, b: string, c: string, d: string)
    requires Join(a, b) == Join(c, d)
    ensures a == c || ExtendsByColon(a, c) || ExtendsByColon(c, a)
    ensures a == c ==> b == d
  {
    var s := Join(a, b);
    assert s[..|a|] == a && s[..|c|] == c;
    assert s[|a| + 1..] == b && s[|c| + 1..] == d;
    if |a| < |c| {
      assert s[..|c|][..|a|] == s[..|a|];
      assert c[|a|] == s[|a|] == ':';
    } else if |c| < |a| {
      assert s[..|a|][..|c|] == s[..|c|];
      assert a[|c|] == s[|c|] == ':';
    }
  }

  lemma ColonFreeExtendsNothing(shorter: string, longer: string)
    requires ColonFree(longer)
    ensures !ExtendsByColon(shorter, longer)
  {
    if |shorter| < |longer| {
      assert longer[|shorter|] in longer;
    }
  }

  lemma JoinIsInjective(a: string, b: string, c: string, d: string)
    requires ColonFree(a) && ColonFree(c)
    ensures Join(a, b) == Join(c, d) <==> a == c && b == d
  {
    if Join(a, b) == Join(c, d) {
      JoinedHeads(a, b, c, d);
      ColonFreeExtendsNothing(a, c);
      ColonFreeExtendsNothing(c, a);
    }
  }

  /** Two heads can be joined to one key, with suitable tails, exactly when they are equal or one extends the other by
      a ':'. */
  lemma HeadsCollideIff(a: string, c: string)
    ensures (exists b, d :: Join(a, b) == Join(c, d)) <==> a == c || ExtendsByColon(a, c) || ExtendsByColon(c, a)
  {
    forall b, d | Join(a, b) == Join(c, d)
      ensures a == c || ExtendsByColon(a, c) || ExtendsByColon(c, a)
    {
      JoinedHeads(a, b, c, d);
    }
    if a == c {
      assert Join(a, "") == Join(c, "");
    } else if ExtendsByColon(a, c) {
      assert c == a + ":" + c[|a| + 1..];
      assert Join(a, c[|a| + 1..] + ":") == Join(c, "");
    } else if ExtendsByColon(c, a) {
      assert a == c + ":" + a[|c| + 1..];
      assert Join(a, "") == Join(c, a[|c| + 1..] + ":");
    }
  }
}
