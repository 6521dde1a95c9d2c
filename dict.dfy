/** Python dictionaries with string keys, as the scripts use them: entries
    in insertion order, where assigning to an existing key keeps its place
    and assigning to a new key appends it. */
module Dict {
  import opened Text

  type Dict<V> = seq<(string, V)>

  /** Where key `k` sits, if it is there. */
  function Position<V>(d: Dict<V>, k: string): (r: Option<nat>)
    ensures r.Some? ==> r.value < |d| && d[r.value].0 == k
    ensures r.Some? ==> forall i :: 0 <= i < r.value ==> d[i].0 != k
    ensures r.None? ==> forall i :: 0 <= i < |d| ==> d[i].0 != k
  {
    if d == [] then None
    else if d[0].0 == k then Some(0)
    else match Position(d[1..], k)
      case None => None
      case Some(p) => Some(p + 1)
  }

  /** `d[k]`, or `None` where Python raises `KeyError`. */
  function Lookup<V>(d: Dict<V>, k: string): Option<V> {
    match Position(d, k)
    case None => None
    case Some(p) => Some(d[p].1)
  }

  /** `d[k] = v`. */
  function Assign<V>(d: Dict<V>, k: string, v: V): Dict<V> {
    match Position(d, k)
    case Some(p) => d[p := (k, v)]
    case None => d + [(k, v)]
  }

  /** The keys in order. */
  function Keys<V>(d: Dict<V>): (ks: seq<string>)
    ensures |ks| == |d| && forall i :: 0 <= i < |d| ==> ks[i] == d[i].0
  {
    seq(|d|, i requires 0 <= i < |d| => d[i].0)
  }

  /** No key occurs twice: what every Python dictionary satisfies. */
  predicate UniqueKeys<V>(d: Dict<V>) {
    forall i, j :: 0 <= i < j < |d| ==> d[i].0 != d[j].0
  }

  /** The first entry with key `k` is the one `Position` finds. */
  lemma PositionOfFirst<V>(d: Dict<V>, k: string, p: nat)
    requires p < |d| && d[p].0 == k
    requires forall i :: 0 <= i < p ==> d[i].0 != k
    ensures Position(d, k) == Some(p)
  {
  }

  lemma PositionOfAbsent<V>(d: Dict<V>, k: string)
    requires forall i :: 0 <= i < |d| ==> d[i].0 != k
    ensures Position(d, k) == None
  {
  }

  /** In a dictionary without doubled keys, each entry's key reads that
      entry's value. */
  lemma LookupUnique<V>(d: Dict<V>, p: nat)
    requires UniqueKeys(d) && p < |d|
    ensures Lookup(d, d[p].0) == Some(d[p].1)
  {
    PositionOfFirst(d, d[p].0, p);
  }

  /** Where a key sits depends only on the keys. */
  lemma PositionSameKeys<V, W>(d: Dict<V>, e: Dict<W>, k: string)
    requires |d| == |e| && forall i :: 0 <= i < |d| ==> d[i].0 == e[i].0
    ensures Position(d, k) == Position(e, k)
  {
    match Position(d, k)
    case Some(p) => PositionOfFirst(e, k, p);
    case None => PositionOfAbsent(e, k);
  }

  /** After `d[k] = v`, `k` reads `v`, every other key reads as before, the
      keys keep their order, a new key goes last, and no key is doubled. */
  lemma AssignLookup<V>(d: Dict<V>, k: string, v: V)
    ensures Lookup(Assign(d, k, v), k) == Some(v)
    ensures forall k' :: k' != k ==> Lookup(Assign(d, k, v), k') == Lookup(d, k')
    ensures Position(d, k).Some? ==> Keys(Assign(d, k, v)) == Keys(d)
    ensures Position(d, k).None? ==> Keys(Assign(d, k, v)) == Keys(d) + [k]
    ensures UniqueKeys(d) ==> UniqueKeys(Assign(d, k, v))
  {
    AssignReads(d, k, v);
    AssignKeys(d, k, v);
  }

  /** The reading half of `AssignLookup`. */
  lemma AssignReads<V>(d: Dict<V>, k: string, v: V)
    ensures Lookup(Assign(d, k, v), k) == Some(v)
    ensures forall k' :: k' != k ==> Lookup(Assign(d, k, v), k') == Lookup(d, k')
  {
    var r := Assign(d, k, v);
    match Position(d, k)
    case Some(p) =>
      PositionOfFirst(r, k, p);
      forall k' | k' != k ensures Lookup(r, k') == Lookup(d, k') {
        PositionSameKeys(d, r, k');
      }
    case None =>
      PositionOfFirst(r, k, |d|);
      forall k' | k' != k ensures Lookup(r, k') == Lookup(d, k') {
        match Position(d, k')
        case Some(q) => PositionOfFirst(r, k', q);
        case None => PositionOfAbsent(r, k');
      }
  }

  /** The key half of `AssignLookup`. */
  lemma AssignKeys<V>(d: Dict<V>, k: string, v: V)
    ensures Position(d, k).Some? ==> Keys(Assign(d, k, v)) == Keys(d)
    ensures Position(d, k).None? ==> Keys(Assign(d, k, v)) == Keys(d) + [k]
    ensures UniqueKeys(d) ==> UniqueKeys(Assign(d, k, v))
  {
    var r := Assign(d, k, v);
    match Position(d, k)
    case Some(p) =>
      assert forall i :: 0 <= i < |d| ==> r[i].0 == d[i].0;
    case None =>
      assert forall i :: 0 <= i < |d| ==> r[i] == d[i];
  }

  /** `d = {}` followed by `d[key] = value` for the entry each item gives,
      item by item; items that give no entry are skipped. */
  function Build<T, V>(items: seq<T>, entry: T -> Option<(string, V)>): Dict<V>
  {
    if items == [] then []
    else
      var d := Build(items[..|items| - 1], entry);
      match entry(items[|items| - 1])
      case Some(kv) => Assign(d, kv.0, kv.1)
      case None => d
  }

  /** Item `x` gives an entry with key `k`. */
  predicate Gives<T, V>(entry: T -> Option<(string, V)>, x: T, k: string) {
    entry(x).Some? && entry(x).value.0 == k
  }

  /** The value of the last item that gives key `k`, if any item does. */
  function LastEntry<T, V>(items: seq<T>, entry: T -> Option<(string, V)>, k: string): Option<V> {
    if items == [] then None
    else if Gives(entry, items[|items| - 1], k) then Some(entry(items[|items| - 1]).value.1)
    else LastEntry(items[..|items| - 1], entry, k)
  }

  /** Some item gives key `k` exactly when there is a last value for `k`. */
  lemma {:induction false} LastEntryGiven<T, V>(items: seq<T>, entry: T -> Option<(string, V)>, k: string)
    ensures LastEntry(items, entry, k).Some? <==> exists j :: 0 <= j < |items| && Gives(entry, items[j], k)
  {
    if items != [] {
      var n := |items| - 1;
      var init := items[..n];
      LastEntryGiven(init, entry, k);
      if LastEntry(items, entry, k).Some? && !Gives(entry, items[n], k) {
        var j :| 0 <= j < n && Gives(entry, init[j], k);
        assert items[j] == init[j];
      }
      if exists j :: 0 <= j < |items| && Gives(entry, items[j], k) {
        var j :| 0 <= j < |items| && Gives(entry, items[j], k);
        if j < n {
          assert init[j] == items[j];
        }
      }
    }
  }

  /** The last value for `k` is the value of the last item giving `k`. */
  lemma {:induction false} LastEntryOfLast<T, V>(items: seq<T>, entry: T -> Option<(string, V)>, k: string, j: nat)
    requires j < |items| && Gives(entry, items[j], k)
    requires forall i :: j < i < |items| ==> !Gives(entry, items[i], k)
    ensures LastEntry(items, entry, k) == Some(entry(items[j]).value.1)
  {
    var n := |items| - 1;
    if j < n {
      var init := items[..n];
      assert init[j] == items[j];
      assert forall i :: j < i < n ==> init[i] == items[i];
      LastEntryOfLast(init, entry, k, j);
    }
  }

  /** The built dictionary holds each key once, and reading key `k` gives
      the value of the last item that gave `k` (a later duplicate
      overwrites an earlier one), or fails where no item gave it. */
  lemma {:induction false} BuildLastWins<T, V>(items: seq<T>, entry: T -> Option<(string, V)>)
    ensures UniqueKeys(Build(items, entry))
    ensures forall k :: Lookup(Build(items, entry), k) == LastEntry(items, entry, k)
  {
    if items != [] {
      var n := |items| - 1;
      var d := Build(items[..n], entry);
      BuildLastWins(items[..n], entry);
      match entry(items[n])
      case Some(kv) => AssignLookup(d, kv.0, kv.1);
      case None =>
    }
  }

  /** `d.delete(k)` (`del d[k]` in Python): the entry with key `k` goes,
      every other entry keeps its place. */
  function Delete<V>(d: Dict<V>, k: string): (r: Dict<V>)
    ensures |r| <= |d|
    ensures forall i :: 0 <= i < |r| ==> r[i] in d && r[i].0 != k
  {
    if d == [] then []
    else if d[0].0 == k then Delete(d[1..], k)
    else [d[0]] + Delete(d[1..], k)
  }

  /** Deleting an absent key changes nothing. */
  lemma {:induction false} DeleteAbsent<V>(d: Dict<V>, k: string)
    requires Position(d, k).None?
    ensures Delete(d, k) == d
  {
    if d != [] {
      DeleteAbsent(d[1..], k);
    }
  }

  /** After deleting `k`, `k` reads nothing and every other key reads as
      before. */
  lemma {:induction false} DeleteLookup<V>(d: Dict<V>, k: string)
    ensures Lookup(Delete(d, k), k).None?
    ensures forall k' :: k' != k ==> Lookup(Delete(d, k), k') == Lookup(d, k')
  {
    var r := Delete(d, k);
    PositionOfAbsent(r, k);
    if d != [] {
      DeleteLookup(d[1..], k);
      if d[0].0 != k {
        forall k' | k' != k ensures Lookup(r, k') == Lookup(d, k') {
          if k' != d[0].0 {
            PositionSkip(d, k');
            PositionSkip(r, k');
          }
        }
      }
    }
  }

  /** Deleting keeps the other keys in their order. */
  lemma {:induction false} DeleteKeys<V>(d: Dict<V>, k: string)
    ensures Keys(Delete(d, k)) == Remove(Keys(d), k)
  {
    if d != [] {
      DeleteKeys(d[1..], k);
      var ks := Keys(d);
      assert ks[0] == d[0].0;
      assert ks[1..] == Keys(d[1..]);
      if d[0].0 != k {
        KeysCons(d[0], Delete(d[1..], k));
      }
    }
  }

  /** The keys of a dictionary with one more entry in front. */
  lemma KeysCons<V>(e: (string, V), d: Dict<V>)
    ensures Keys([e] + d) == [e.0] + Keys(d)
  {
  }

  /** Deleting never doubles a key. */
  lemma {:induction false} DeleteUnique<V>(d: Dict<V>, k: string)
    requires UniqueKeys(d)
    ensures UniqueKeys(Delete(d, k))
  {
    if d != [] {
      assert UniqueKeys(d[1..]);
      DeleteUnique(d[1..], k);
      if d[0].0 != k {
        var t := Delete(d[1..], k);
        assert forall i :: 0 <= i < |t| ==> t[i] in d[1..];
        assert forall i :: 0 <= i < |t| ==> t[i].0 != d[0].0;
      }
    }
  }

  /** The key of a dictionary's first entry is found there; any other key is
      found one place later than in the rest. */
  lemma PositionSkip<V>(d: Dict<V>, k: string)
    requires d != [] && d[0].0 != k
    ensures Lookup(d, k) == Lookup(d[1..], k)
  {
  }

  /** `d[k] = v` for every entry of `entries`, in order. */
  function AssignAll<V>(d: Dict<V>, entries: Dict<V>): Dict<V> {
    if entries == [] then d
    else
      var n := |entries| - 1;
      Assign(AssignAll(d, entries[..n]), entries[n].0, entries[n].1)
  }

  /** Assigning every entry of a dictionary without doubled keys to an empty
      one rebuilds it exactly, order included. */
  lemma {:induction false} AssignAllFresh<V>(entries: Dict<V>)
    requires UniqueKeys(entries)
    ensures AssignAll([], entries) == entries
  {
    if entries != [] {
      var n := |entries| - 1;
      var init := entries[..n];
      AssignAllFresh(init);
      assert forall i :: 0 <= i < n ==> init[i].0 != entries[n].0;
      PositionOfAbsent(init, entries[n].0);
      assert init + [entries[n]] == entries;
    }
  }

  /** Assigning entries without doubled keys onto `d`: a key of `entries`
      reads its value there, any other key reads as in `d`. */
  lemma {:induction false} AssignAllLookup<V>(d: Dict<V>, entries: Dict<V>, k: string)
    requires UniqueKeys(entries)
    ensures Lookup(entries, k).Some? ==> Lookup(AssignAll(d, entries), k) == Lookup(entries, k)
    ensures Lookup(entries, k).None? ==> Lookup(AssignAll(d, entries), k) == Lookup(d, k)
  {
    if entries != [] {
      var n := |entries| - 1;
      var init := entries[..n];
      assert UniqueKeys(init);
      AssignAllLookup(d, init, k);
      AssignReads(AssignAll(d, init), entries[n].0, entries[n].1);
      LookupLast(entries, k);
    }
  }

  /** Reading a dictionary without doubled keys: its last key reads the
      last value, any other key reads as in the entries before. */
  lemma LookupLast<V>(entries: Dict<V>, k: string)
    requires entries != [] && UniqueKeys(entries)
    ensures var n := |entries| - 1;
      Lookup(entries, k) == if entries[n].0 == k then Some(entries[n].1) else Lookup(entries[..n], k)
  {
    var n := |entries| - 1;
    var init := entries[..n];
    assert forall i :: 0 <= i < n ==> init[i] == entries[i];
    if entries[n].0 == k {
      PositionOfFirst(entries, k, n);
    } else {
      match Position(init, k)
      case Some(p) => PositionOfFirst(entries, k, p);
      case None => PositionOfAbsent(entries, k);
    }
  }
}
