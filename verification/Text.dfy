/** Strings as the catalog compares them: the order of type `name`, and `LIKE`. */
module Text {

  /** The order of type `name`: character by character, a proper prefix first. */
  predicate TextLe(a: string, b: string) {
    if a == [] then true
    else if b == [] then false
    else if a[0] == b[0] then TextLe(a[1..], b[1..])
    else a[0] < b[0]
  }

  /** The two strings agree before position `k` and `a` ends there or has the smaller character. */
  ghost predicate FirstDifference(a: string, b: string, k: nat) {
    && k <= |a| && k <= |b| && a[..k] == b[..k]
    && (k == |a| || (k < |b| && a[k] < b[k]))
  }

  /** The order is the dictionary order. */
  lemma {:induction false} TextLeIsDictionaryOrder(a: string, b: string)
    ensures TextLe(a, b) <==> exists k: nat :: FirstDifference(a, b, k)
  {
    forall k: nat | FirstDifference(a, b, k) && k > 0 ensures a != [] && b != [] && a[0] == b[0] {
      assert a[0] == a[..k][0] && b[0] == b[..k][0];
    }
    if a == [] {
      assert FirstDifference(a, b, 0);
    } else if b != [] && a[0] == b[0] {
      TextLeIsDictionaryOrder(a[1..], b[1..]);
      if TextLe(a, b) {
        var k: nat :| FirstDifference(a[1..], b[1..], k);
        assert a[..k + 1] == [a[0]] + a[1..][..k] && b[..k + 1] == [b[0]] + b[1..][..k];
        assert FirstDifference(a, b, k + 1);
      }
      if k: nat :| FirstDifference(a, b, k) {
        assert k > 0;
        assert a[1..][..k - 1] == a[..k][1..] && b[1..][..k - 1] == b[..k][1..];
        assert FirstDifference(a[1..], b[1..], k - 1);
      }
    } else {
      if b != [] && a[0] < b[0] {
        assert a[..0] == b[..0];
        assert FirstDifference(a, b, 0);
      }
    }
  }

  lemma {:induction false} TextLeTotal(a: string, b: string)
    ensures TextLe(a, b) || TextLe(b, a)
  {
    if a != [] && b != [] && a[0] == b[0] {
      TextLeTotal(a[1..], b[1..]);
    }
  }

  lemma {:induction false} TextLeTransitive(a: string, b: string, c: string)
    requires TextLe(a, b) && TextLe(b, c)
    ensures TextLe(a, c)
  {
    if a != [] && a[0] == b[0] && b[0] == c[0] {
      TextLeTransitive(a[1..], b[1..], c[1..]);
    }
  }

  lemma {:induction false} TextLeAntisymmetric(a: string, b: string)
    requires TextLe(a, b) && TextLe(b, a)
    ensures a == b
  {
    if a != [] {
      TextLeAntisymmetric(a[1..], b[1..]);
      assert a == [a[0]] + a[1..] && b == [b[0]] + b[1..];
    }
  }

  /** The order of pairs of names: the first component decides, then the second. */
  predicate PairLe(s1: string, n1: string, s2: string, n2: string) {
    if s1 == s2 then TextLe(n1, n2) else TextLe(s1, s2)
  }

  lemma PairLeLinear(s1: string, n1: string, s2: string, n2: string, s3: string, n3: string)
    ensures PairLe(s1, n1, s2, n2) || PairLe(s2, n2, s1, n1)
    ensures PairLe(s1, n1, s2, n2) && PairLe(s2, n2, s3, n3) ==> PairLe(s1, n1, s3, n3)
    ensures PairLe(s1, n1, s2, n2) && PairLe(s2, n2, s1, n1) ==> s1 == s2 && n1 == n2
  {
    TextLeTotal(n1, n2);
    TextLeTotal(s1, s2);
    if PairLe(s1, n1, s2, n2) && PairLe(s2, n2, s3, n3) {
      if s1 == s2 && s2 == s3 {
        TextLeTransitive(n1, n2, n3);
      } else if s1 != s2 && s2 != s3 {
        TextLeTransitive(s1, s2, s3);
        if s1 == s3 {
          TextLeAntisymmetric(s1, s2);
        }
      }
    }
    if PairLe(s1, n1, s2, n2) && PairLe(s2, n2, s1, n1) {
      if s1 == s2 {
        TextLeAntisymmetric(n1, n2);
      } else {
        TextLeAntisymmetric(s1, s2);
      }
    }
  }

  /** Sorting by the first component, then within it by the second. */
  lemma PairLeMeans(s1: string, n1: string, s2: string, n2: string)
    ensures PairLe(s1, n1, s2, n2) <==> TextLe(s1, s2) && (s1 == s2 ==> TextLe(n1, n2))
  {
    TextLeTotal(s1, s1);
  }

  /** `LIKE`: `_` stands for any one character, `%` for any number of them. */
  predicate Like(s: string, pattern: string)
    decreases |pattern|, |s|
  {
    if pattern == [] then s == []
    else if pattern[0] == '%' then Like(s, pattern[1..]) || (s != [] && Like(s[1..], pattern))
    else s != [] && (pattern[0] == '_' || pattern[0] == s[0]) && Like(s[1..], pattern[1..])
  }

  lemma {:induction false} LikeAnything(s: string)
    ensures Like(s, "%")
  {
    if s == [] {
      assert Like(s, "%"[1..]);
    } else {
      LikeAnything(s[1..]);
    }
  }
}
