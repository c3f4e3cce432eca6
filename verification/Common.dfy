/** Small shared vocabulary of the models. */
module Common {

  datatype Option<+T> = None | Some(value: T)

  function Min(a: int, b: int): int { if a <= b then a else b }

  function Max(a: int, b: int): int { if a <= b then b else a }

  /** A lookup with a default, the `map.get(key) ?? fallback` of the TypeScript sources. */
  function GetOr<K, V>(m: map<K, V>, k: K, fallback: V): V {
    if k in m then m[k] else fallback
  }

  predicate IsLeast(s: set<int>, x: int) { x in s && forall y | y in s :: x <= y }

  predicate IsGreatest(s: set<int>, x: int) { x in s && forall y | y in s :: y <= x }

  lemma {:induction false} LeastExists(s: set<int>, z: int)
    requires z in s
    ensures exists x :: IsLeast(s, x)
  {
    if y :| y in s && y < z {
      LeastExists(s - {z}, y);
      var x :| IsLeast(s - {z}, x);
      assert forall w | w in s :: w == z || w in s - {z};
      assert IsLeast(s, x);
    } else {
      assert IsLeast(s, z);
    }
  }

  lemma {:induction false} GreatestExists(s: set<int>, z: int)
    requires z in s
    ensures exists x :: IsGreatest(s, x)
  {
    if y :| y in s && y > z {
      GreatestExists(s - {z}, y);
      var x :| IsGreatest(s - {z}, x);
      assert forall w | w in s :: w == z || w in s - {z};
      assert IsGreatest(s, x);
    } else {
      assert IsGreatest(s, z);
    }
  }

  function Least(s: set<int>): (x: int)
    requires exists z :: z in s
    ensures IsLeast(s, x)
  {
    LeastExists(s, var z :| z in s; z);
    var x :| x in s && IsLeast(s, x);
    x
  }

  function Greatest(s: set<int>): (x: int)
    requires exists z :: z in s
    ensures IsGreatest(s, x)
  {
    GreatestExists(s, var z :| z in s; z);
    var x :| x in s && IsGreatest(s, x);
    x
  }
}
