/** A list of objects that are looked up by their serial number, newest first,
    as the world keeps its items and mobiles (src/World.cxx:18-38, 162-182). */
module SerialList {
  import opened Wrappers

  datatype Entry<V> = Entry(serial: nat, data: V)

  /** The map that a list stands for. */
  ghost function Get<V>(xs: seq<Entry<V>>, s: nat): Option<V> {
    if xs == [] then None
    else if xs[0].serial == s then Some(xs[0].data)
    else Get(xs[1..], s)
  }

  ghost predicate DistinctSerials<V>(xs: seq<Entry<V>>) {
    forall i, j :: 0 <= i < j < |xs| ==> xs[i].serial != xs[j].serial
  }

  lemma {:induction false} GetAt<V>(xs: seq<Entry<V>>, i: nat)
    requires DistinctSerials(xs) && i < |xs|
    ensures Get(xs, xs[i].serial) == Some(xs[i].data)
  {
    if i > 0 {
      GetAt(xs[1..], i - 1);
    }
  }

  lemma {:induction false} GetNone<V>(xs: seq<Entry<V>>, s: nat)
    ensures Get(xs, s) == None <==> forall i :: 0 <= i < |xs| ==> xs[i].serial != s
  {
    if xs != [] {
      GetNone(xs[1..], s);
      if Get(xs, s) != None && xs[0].serial != s {
        var i :| 0 <= i < |xs[1..]| && xs[1..][i].serial == s;
        assert xs[i + 1].serial == s;
      }
    }
  }

  /** Linear search from the front. */
  method Find<V>(xs: seq<Entry<V>>, s: nat) returns (i: Option<nat>)
    ensures i.Some? ==> i.value < |xs| && xs[i.value].serial == s
    ensures i.None? <==> Get(xs, s).None?
    ensures DistinctSerials(xs) && i.Some? ==> Get(xs, s) == Some(xs[i.value].data)
  {
    GetNone(xs, s);
    for k := 0 to |xs|
      invariant forall j :: 0 <= j < k ==> xs[j].serial != s
    {
      if xs[k].serial == s {
        if DistinctSerials(xs) {
          GetAt(xs, k);
        }
        return Some(k);
      }
    }
    return None;
  }

  /** Finds the entry or puts a new one at the front, like MakeItem and
      MakeMobile. */
  method Make<V>(xs: seq<Entry<V>>, s: nat, blank: V) returns (ys: seq<Entry<V>>, i: nat)
    requires DistinctSerials(xs)
    ensures DistinctSerials(ys) && i < |ys| && ys[i].serial == s
    ensures ys[i].data == (if Get(xs, s).Some? then Get(xs, s).value else blank)
    ensures forall r :: r != s ==> Get(ys, r) == Get(xs, r)
  {
    var found := Find(xs, s);
    if found.Some? {
      return xs, found.value;
    }
    GetNone(xs, s);
    ys, i := [Entry(s, blank)] + xs, 0;
    assert ys[1..] == xs;
  }

  lemma {:induction false} GetUpdate<V>(xs: seq<Entry<V>>, i: nat, v: V, r: nat)
    requires DistinctSerials(xs) && i < |xs|
    ensures var ys := xs[i := Entry(xs[i].serial, v)];
            DistinctSerials(ys) && Get(ys, r) == if r == xs[i].serial then Some(v) else Get(xs, r)
  {
    var ys := xs[i := Entry(xs[i].serial, v)];
    assert DistinctSerials(ys);
    if i > 0 {
      GetUpdate(xs[1..], i - 1, v, r);
      assert ys[1..] == xs[1..][i - 1 := Entry(xs[i].serial, v)];
    }
  }

  /** Writes an entry's data, creating the entry if there is none. */
  method Put<V>(xs: seq<Entry<V>>, s: nat, blank: V, update: V -> V) returns (ys: seq<Entry<V>>)
    requires DistinctSerials(xs)
    ensures DistinctSerials(ys)
    ensures Get(ys, s) == Some(update(if Get(xs, s).Some? then Get(xs, s).value else blank))
    ensures forall r :: r != s ==> Get(ys, r) == Get(xs, r)
  {
    var zs, i := Make(xs, s, blank);
    forall r ensures Get(zs[i := Entry(s, update(zs[i].data))], r)
                  == if r == s then Some(update(zs[i].data)) else Get(zs, r)
    {
      GetUpdate(zs, i, update(zs[i].data), r);
    }
    GetUpdate(zs, i, update(zs[i].data), s);
    ys := zs[i := Entry(s, update(zs[i].data))];
  }

  /** The entries that satisfy a predicate, in order. */
  function Filter<T>(xs: seq<T>, keep: T -> bool): seq<T> {
    if xs == [] then []
    else if keep(xs[0]) then [xs[0]] + Filter(xs[1..], keep)
    else Filter(xs[1..], keep)
  }

  lemma {:induction false} FilterIn<T>(xs: seq<T>, keep: T -> bool, x: T)
    ensures x in Filter(xs, keep) <==> x in xs && keep(x)
  {
    if xs != [] {
      FilterIn(xs[1..], keep, x);
    }
  }

  lemma {:induction false} FilterSize<T>(xs: seq<T>, keep: T -> bool, x: T)
    ensures |Filter(xs, keep)| <= |xs|
    ensures x in xs && !keep(x) ==> |Filter(xs, keep)| < |xs|
  {
    if xs != [] {
      FilterSize(xs[1..], keep, x);
    }
  }

  lemma {:induction false} FilterDistinct<V>(xs: seq<Entry<V>>, keep: Entry<V> -> bool, s: nat)
    requires DistinctSerials(xs)
    ensures DistinctSerials(Filter(xs, keep))
    ensures Get(Filter(xs, keep), s)
         == match Get(xs, s)
            case None => None
            case Some(v) => if keep(Entry(s, v)) then Some(v) else None
  {
    if xs != [] {
      FilterDistinct(xs[1..], keep, s);
      GetNone(xs[1..], s);
      var ys := Filter(xs, keep);
      if keep(xs[0]) {
        assert ys[1..] == Filter(xs[1..], keep);
        forall j | 1 <= j < |ys| ensures ys[0].serial != ys[j].serial {
          var y := Filter(xs[1..], keep)[j - 1];
          FilterIn(xs[1..], keep, y);
          var k :| 0 <= k < |xs[1..]| && xs[1..][k] == y;
          assert xs[k + 1] == y;
        }
      }
      assert xs[0] == Entry(xs[0].serial, xs[0].data);
    }
  }
}
