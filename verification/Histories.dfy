// Counting, projecting and cutting finite histories, which grow at the end.
module Histories {
  datatype Option<+T> = None | Some(value: T)

  function Last<T>(s: seq<T>): T
    requires s != []
  {
    s[|s| - 1]
  }

  function Front<T>(s: seq<T>): seq<T>
    requires s != []
  {
    s[..|s| - 1]
  }

  function Count<T>(p: T -> bool, s: seq<T>): nat {
    if s == [] then 0 else Count(p, Front(s)) + if p(Last(s)) then 1 else 0
  }

  // The values f extracts from the elements it is defined on, in order.
  function Collect<T, U>(f: T -> Option<U>, s: seq<T>): seq<U> {
    if s == [] then [] else
    var before := Collect(f, Front(s));
    match f(Last(s))
    case Some(u) => before + [u]
    case None => before
  }

  // The elements after the last one satisfying p; all of them if there is none.
  function After<T>(p: T -> bool, s: seq<T>): seq<T> {
    if s == [] || p(Last(s)) then [] else After(p, Front(s)) + [Last(s)]
  }

  lemma Snoc<T>(s: seq<T>, x: T)
    ensures Front(s + [x]) == s && Last(s + [x]) == x
  {}

  lemma CountSnoc<T>(p: T -> bool, s: seq<T>, x: T)
    ensures Count(p, s + [x]) == Count(p, s) + if p(x) then 1 else 0
  {
    Snoc(s, x);
  }

  lemma CollectSnoc<T, U>(f: T -> Option<U>, s: seq<T>, x: T)
    ensures Collect(f, s + [x]) == Collect(f, s) + if f(x).Some? then [f(x).value] else []
  {
    Snoc(s, x);
  }

  lemma AfterSnoc<T>(p: T -> bool, s: seq<T>, x: T)
    ensures After(p, s + [x]) == if p(x) then [] else After(p, s) + [x]
  {
    Snoc(s, x);
  }

  lemma {:induction false} CountConcat<T>(p: T -> bool, a: seq<T>, b: seq<T>)
    ensures Count(p, a + b) == Count(p, a) + Count(p, b)
  {
    if b == [] {
      assert a + b == a;
    } else {
      assert a + b == (a + Front(b)) + [Last(b)];
      CountSnoc(p, a + Front(b), Last(b));
      CountConcat(p, a, Front(b));
    }
  }

  lemma {:induction false} CollectConcat<T, U>(f: T -> Option<U>, a: seq<T>, b: seq<T>)
    ensures Collect(f, a + b) == Collect(f, a) + Collect(f, b)
  {
    if b == [] {
      assert a + b == a;
    } else {
      assert a + b == (a + Front(b)) + [Last(b)];
      CollectSnoc(f, a + Front(b), Last(b));
      CollectConcat(f, a, Front(b));
    }
  }

  // What follows the last p of a + b is found in b alone when b holds a p.
  lemma {:induction false} AfterConcat<T>(p: T -> bool, a: seq<T>, b: seq<T>)
    ensures After(p, a + b) == if Count(p, b) > 0 then After(p, b) else After(p, a) + b
  {
    if b == [] {
      assert a + b == a && After(p, a) + b == After(p, a);
    } else {
      hide After;
      hide Count;
      var front, x := Front(b), Last(b);
      assert b == front + [x] && a + b == (a + front) + [x];
      AfterConcat(p, a, front);
      AfterSnoc(p, a + front, x);
      AfterSnoc(p, front, x);
      CountSnoc(p, front, x);
      if !p(x) && Count(p, front) == 0 {
        Regroup(After(p, a), front, x);
      }
    }
  }

  lemma Regroup<T>(a: seq<T>, b: seq<T>, x: T)
    ensures a + b + [x] == a + (b + [x])
  {}
}
