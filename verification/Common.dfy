/** Option values and the one query shape every service uses: the first row of a table
    that satisfies a condition. */
module Common {

  datatype Option<+T> = None | Some(value: T)

  /** `SELECT ... LIMIT 1`: the position of the first row that satisfies `p`. */
  function First<T>(rows: seq<T>, p: T -> bool): (r: Option<nat>)
    ensures r.Some? ==> r.value < |rows| && p(rows[r.value])
    ensures r.Some? ==> forall i | 0 <= i < r.value :: !p(rows[i])
    ensures r.None? ==> forall i | 0 <= i < |rows| :: !p(rows[i])
  {
    if rows == [] then None
    else if p(rows[0]) then Some(0)
    else
      match First(rows[1..], p)
      case None => None
      case Some(i) => Some(i + 1)
  }

  /** `SELECT COUNT(*)`. */
  function Count<T>(rows: seq<T>, p: T -> bool): nat
  {
    if rows == [] then 0
    else Count(rows[..|rows| - 1], p) + (if p(rows[|rows| - 1]) then 1 else 0)
  }

  /** A set that maps one-to-one into another is no larger. */
  lemma {:induction false} InjectionSize<A, B>(s: set<A>, t: set<B>, f: A -> B)
    requires forall a | a in s :: f(a) in t
    requires forall a, b | a in s && b in s && a != b :: f(a) != f(b)
    ensures |s| <= |t|
  {
    if s != {} {
      var a :| a in s;
      InjectionSize(s - {a}, t - {f(a)}, f);
    }
  }

  function Fibre<A, B(==)>(s: set<A>, f: A -> B, b: B): set<A> {
    set a | a in s && f(a) == b
  }

  /** A set that maps into another, at most `m` elements to one, is at most `m` times as large. */
  lemma {:induction false} FibreSize<A, B>(s: set<A>, t: set<B>, f: A -> B, m: nat)
    requires forall a | a in s :: f(a) in t
    requires forall b | b in t :: |Fibre(s, f, b)| <= m
    ensures |s| <= m * |t|
  {
    if t == {} {
      assert s == {};
    } else {
      var b :| b in t;
      var rest := s - Fibre(s, f, b);
      forall c | c in t - {b} ensures |Fibre(rest, f, c)| <= m {
        assert Fibre(rest, f, c) == Fibre(s, f, c);
      }
      FibreSize(rest, t - {b}, f, m);
      FibresAdd(|s|, |rest|, |t - {b}|, m) by {
        assert s == Fibre(s, f, b) + rest;
      }
    }
  }

  lemma FibresAdd(whole: nat, rest: nat, others: nat, m: nat)
    requires rest <= m * others && whole <= rest + m
    ensures whole <= m * (others + 1)
  {
  }

  lemma SubsetSize<T>(a: set<T>, b: set<T>)
    requires a <= b
    ensures |a| <= |b|
  {
    assert b == a + (b - a);
  }
}
