/** The comparison key of the schedulers: a cost, then queue length, then load, then name. */
module Ordering {

  datatype Key = Key(cost: real, queue: int, load: int, name: string)

  /** Lexicographic order of strings by code point. */
  predicate LexLeq(a: string, b: string) {
    a == [] || (b != [] && (a[0] < b[0] || (a[0] == b[0] && LexLeq(a[1..], b[1..]))))
  }

  predicate KeyLeq(a: Key, b: Key) {
    || a.cost < b.cost
    || (a.cost == b.cost &&
        (|| a.queue < b.queue
         || (a.queue == b.queue &&
             (|| a.load < b.load
              || (a.load == b.load && LexLeq(a.name, b.name))))))
  }

  lemma {:induction false} LexTotal(a: string, b: string)
    ensures LexLeq(a, b) || LexLeq(b, a)
    ensures LexLeq(a, b) && LexLeq(b, a) ==> a == b
  {
    if a != [] && b != [] && a[0] == b[0] {
      assert a == [a[0]] + a[1..] && b == [b[0]] + b[1..];
      LexTotal(a[1..], b[1..]);
    }
  }

  lemma {:induction false} LexTransitive(a: string, b: string, c: string)
    requires LexLeq(a, b) && LexLeq(b, c)
    ensures LexLeq(a, c)
  {
    if a != [] && b != [] && c != [] && a[0] == b[0] == c[0] {
      LexTransitive(a[1..], b[1..], c[1..]);
    }
  }

  /** The strings agree up to position k, where the first one ends or has the smaller character. */
  predicate PrecedesAt(a: string, b: string, k: nat) {
    && k <= |a| && k <= |b| && a[..k] == b[..k]
    && (k == |a| || (k < |b| && a[k] < b[k]))
  }

  lemma {:induction false} LexPosition(a: string, b: string) returns (k: nat)
    requires LexLeq(a, b)
    ensures PrecedesAt(a, b, k)
  {
    if a == [] || a[0] < b[0] {
      k := 0;
    } else {
      k := LexPosition(a[1..], b[1..]);
      assert a[..k + 1] == [a[0]] + a[1..][..k] && b[..k + 1] == [b[0]] + b[1..][..k];
      k := k + 1;
    }
  }

  lemma {:induction false} LexFrom(a: string, b: string, k: nat)
    requires PrecedesAt(a, b, k)
    ensures LexLeq(a, b)
  {
    if k > 0 {
      assert a[0] == a[..k][0] == b[..k][0] == b[0];
      assert a[1..][..k - 1] == a[..k][1..] && b[1..][..k - 1] == b[..k][1..];
      LexFrom(a[1..], b[1..], k - 1);
    }
  }

  /** The order of strings is decided at the first difference, a prefix coming first. */
  lemma {:induction false} LexIff(a: string, b: string)
    ensures LexLeq(a, b) <==> exists k: nat :: PrecedesAt(a, b, k)
  {
    if LexLeq(a, b) {
      var k := LexPosition(a, b);
      assert PrecedesAt(a, b, k);
    }
    if k: nat :| PrecedesAt(a, b, k) {
      LexFrom(a, b, k);
    }
  }

  lemma {:induction false} KeyTotal(a: Key, b: Key)
    ensures KeyLeq(a, b) || KeyLeq(b, a)
    ensures KeyLeq(a, b) && KeyLeq(b, a) ==> a == b
  {
    LexTotal(a.name, b.name);
  }

  lemma {:induction false} KeyTransitive(a: Key, b: Key, c: Key)
    requires KeyLeq(a, b) && KeyLeq(b, c)
    ensures KeyLeq(a, c)
  {
    if LexLeq(a.name, b.name) && LexLeq(b.name, c.name) {
      LexTransitive(a.name, b.name, c.name);
    }
  }
}
