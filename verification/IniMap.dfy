/** The insertion-ordered map of the INI library: first its meaning as a list of
    entries, then the class that keeps a vector and an index side by side. */
module IniMap {
  import opened Options
  import opened IniText

  type Table<T> = seq<(string, T)>

  // ---------------------------------------------------------------- meaning

  /** Position of a filed key. */
  function Where<T>(m: Table<T>, k: string): (r: Option<nat>)
    ensures r.Some? ==> r.value < |m| && m[r.value].0 == k
  {
    if m == [] then None
    else if m[0].0 == k then Some(0)
    else match Where(m[1..], k)
      case None => None
      case Some(i) => Some(i + 1)
  }

  function Lookup<T>(m: Table<T>, k: string): Option<T> {
    match Where(m, k)
    case None => None
    case Some(i) => Some(m[i].1)
  }

  predicate Has<T>(m: Table<T>, k: string) {
    Where(m, k).Some?
  }

  /** Store in place, or append. */
  function Put<T>(m: Table<T>, k: string, v: T): Table<T> {
    match Where(m, k)
    case None => m + [(k, v)]
    case Some(i) => m[i := (k, v)]
  }

  /** Drop the entry, keeping the order of the others. */
  function Erase<T>(m: Table<T>, k: string): Table<T> {
    match Where(m, k)
    case None => m
    case Some(i) => m[..i] + m[i + 1..]
  }

  /** Keys in order. */
  function KeysOf<T>(m: Table<T>): (r: seq<string>)
    ensures |r| == |m|
  {
    if m == [] then [] else [m[0].0] + KeysOf(m[1..])
  }

  ghost predicate Distinct<T>(m: Table<T>) {
    forall i, j :: 0 <= i < j < |m| ==> m[i].0 != m[j].0
  }

  lemma {:induction false} WhereNone<T>(m: Table<T>, k: string)
    requires forall i :: 0 <= i < |m| ==> m[i].0 != k
    ensures Where(m, k) == None
  {
    if m != [] {
      WhereNone(m[1..], k);
    }
  }

  lemma {:induction false} WhereAt<T>(m: Table<T>, i: nat)
    requires Distinct(m) && i < |m|
    ensures Where(m, m[i].0) == Some(i)
  {
    if i != 0 {
      WhereAt(m[1..], i - 1);
    }
  }

  lemma {:induction false} WhereMissing<T>(m: Table<T>, k: string, i: nat)
    requires Where(m, k).None? && i < |m|
    ensures m[i].0 != k
  {
    if i != 0 {
      WhereMissing(m[1..], k, i - 1);
    }
  }

  lemma {:induction false} WhereAppend<T>(m: Table<T>, n: Table<T>, k: string)
    ensures Where(m + n, k) == match Where(m, k)
                               case Some(i) => Some(i)
                               case None => match Where(n, k) case Some(j) => Some(|m| + j) case None => None
  {
    if m == [] {
      assert m + n == n;
    } else {
      assert (m + n)[1..] == m[1..] + n;
      WhereAppend(m[1..], n, k);
    }
  }

  lemma {:induction false} WhereUpdate<T>(m: Table<T>, i: nat, v: T, k: string)
    requires i < |m|
    ensures Where(m[i := (m[i].0, v)], k) == Where(m, k)
  {
    if i == 0 {
      assert m[0 := (m[0].0, v)][1..] == m[1..];
    } else {
      assert m[i := (m[i].0, v)][1..] == m[1..][i - 1 := (m[1..][i - 1].0, v)];
      WhereUpdate(m[1..], i - 1, v, k);
    }
  }

  /** Storing is seen under its own key and nowhere else. */
  lemma LookupPut<T>(m: Table<T>, k: string, v: T, k2: string)
    ensures Lookup(Put(m, k, v), k2) == if k2 == k then Some(v) else Lookup(m, k2)
  {
    match Where(m, k) {
      case None =>
        WhereAppend(m, [(k, v)], k2);
      case Some(i) =>
        WhereUpdate(m, i, v, k2);
    }
  }

  lemma EraseDistinct<T>(m: Table<T>, i: nat)
    requires Distinct(m) && i < |m|
    ensures Distinct(m[..i] + m[i + 1..])
    ensures var r := m[..i] + m[i + 1..]; forall j :: 0 <= j < |r| ==> r[j].0 != m[i].0
  {
  }

  lemma SplitEntry<T>(m: Table<T>, i: nat)
    requires i < |m|
    ensures m == m[..i] + ([m[i]] + m[i + 1..])
  {
  }

  lemma EraseSame<T>(m: Table<T>, i: nat)
    requires Distinct(m) && i < |m|
    ensures Where(m[..i] + m[i + 1..], m[i].0) == None
  {
    EraseDistinct(m, i);
    WhereNone(m[..i] + m[i + 1..], m[i].0);
  }

  lemma LookupAppend<T>(m: Table<T>, n: Table<T>, k: string)
    ensures Lookup(m + n, k) == match Lookup(m, k) case Some(v) => Some(v) case None => Lookup(n, k)
  {
    WhereAppend(m, n, k);
  }

  lemma EraseOther<T>(m: Table<T>, i: nat, k: string)
    requires i < |m| && m[i].0 != k
    ensures Lookup(m[..i] + m[i + 1..], k) == Lookup(m, k)
  {
    SplitEntry(m, i);
    assert Lookup([m[i]], k) == None;
    hide Lookup;
    LookupAppend(m[..i], m[i + 1..], k);
    LookupAppend(m[..i], [m[i]] + m[i + 1..], k);
    LookupAppend([m[i]], m[i + 1..], k);
  }

  /** Erasing forgets exactly one key. */
  lemma LookupErase<T>(m: Table<T>, k: string, k2: string)
    requires Distinct(m)
    ensures Lookup(Erase(m, k), k2) == if k2 == k then None else Lookup(m, k2)
  {
    match Where(m, k) {
      case None =>
      case Some(i) =>
        if k2 == k {
          EraseSame(m, i);
        } else {
          EraseOther(m, i, k2);
        }
    }
  }

  // ---------------------------------------------------------------- order

  /** The names that satisfy `p`, in order. */
  function Only(keys: seq<string>, p: string -> bool): seq<string> {
    if keys == [] then [] else (if p(keys[0]) then [keys[0]] else []) + Only(keys[1..], p)
  }

  lemma {:induction false} OnlyConcat(x: seq<string>, y: seq<string>, p: string -> bool)
    ensures Only(x + y, p) == Only(x, p) + Only(y, p)
  {
    if x == [] {
      assert x + y == y;
    } else {
      assert (x + y)[1..] == x[1..] + y;
      OnlyConcat(x[1..], y, p);
    }
  }

  lemma OnlyOne(k: string, p: string -> bool)
    ensures Only([k], p) == if p(k) then [k] else []
  {
    assert [k][1..] == [];
  }

  lemma {:induction false} OnlyAll(keys: seq<string>, p: string -> bool)
    requires forall i :: 0 <= i < |keys| ==> p(keys[i])
    ensures Only(keys, p) == keys
  {
    if keys != [] {
      OnlyAll(keys[1..], p);
    }
  }

  lemma {:induction false} OnlyIn(keys: seq<string>, p: string -> bool, k: string)
    ensures k in Only(keys, p) <==> k in keys && p(k)
  {
    if keys != [] {
      OnlyIn(keys[1..], p, k);
      assert keys == [keys[0]] + keys[1..];
    }
  }

  lemma {:induction false} KeysConcat<T>(m: Table<T>, n: Table<T>)
    ensures KeysOf(m + n) == KeysOf(m) + KeysOf(n)
  {
    if m == [] {
      assert m + n == n;
    } else {
      assert (m + n)[1..] == m[1..] + n;
      KeysConcat(m[1..], n);
    }
  }

  lemma KeysOne<T>(k: string, v: T)
    ensures KeysOf([(k, v)]) == [k]
  {
    assert [(k, v)][1..] == [];
  }

  lemma {:induction false} KeysAt<T>(m: Table<T>, i: nat)
    requires i < |m|
    ensures KeysOf(m)[i] == m[i].0
  {
    if i > 0 {
      KeysAt(m[1..], i - 1);
    }
  }

  lemma {:induction false} KeysHas<T>(m: Table<T>, k: string)
    ensures Has(m, k) <==> k in KeysOf(m)
  {
    if m != [] {
      KeysHas(m[1..], k);
      assert KeysOf(m)[1..] == KeysOf(m[1..]);
    }
  }

  /** A new key goes to the end, a known one stays where it is. */
  lemma KeysPut<T>(m: Table<T>, k: string, v: T)
    ensures KeysOf(Put(m, k, v)) == if Has(m, k) then KeysOf(m) else KeysOf(m) + [k]
  {
    hide KeysOf;
    match Where(m, k) {
      case None =>
        KeysConcat(m, [(k, v)]);
        KeysOne(k, v);
      case Some(i) =>
        var n := m[i := (k, v)];
        forall j | 0 <= j < |m| ensures KeysOf(n)[j] == KeysOf(m)[j] {
          KeysAt(m, j);
          KeysAt(n, j);
        }
    }
  }

  function Except(k: string): string -> bool {
    x => x != k
  }

  lemma NoneDropped<T>(m: Table<T>, k: string)
    requires forall i :: 0 <= i < |m| ==> m[i].0 != k
    ensures Only(KeysOf(m), Except(k)) == KeysOf(m)
  {
    forall i | 0 <= i < |m| ensures Except(k)(KeysOf(m)[i]) { KeysAt(m, i); }
    OnlyAll(KeysOf(m), Except(k));
  }

  /** Erasing keeps the order of the other keys. */
  lemma EraseKeepsOrder<T>(m: Table<T>, k: string)
    requires Distinct(m)
    ensures KeysOf(Erase(m, k)) == Only(KeysOf(m), Except(k))
  {
    match Where(m, k) {
      case None =>
        forall i | 0 <= i < |m| ensures m[i].0 != k { WhereMissing(m, k, i); }
        NoneDropped(m, k);
      case Some(i) =>
        SplitEntry(m, i);
        NoneDropped(m[..i], k);
        NoneDropped(m[i + 1..], k);
        DropEntry(m[..i], m[i], m[i + 1..]);
    }
  }

  lemma DropEntry<T>(a: Table<T>, e: (string, T), b: Table<T>)
    requires Only(KeysOf(a), Except(e.0)) == KeysOf(a) && Only(KeysOf(b), Except(e.0)) == KeysOf(b)
    ensures Only(KeysOf(a + ([e] + b)), Except(e.0)) == KeysOf(a + b)
  {
    hide KeysOf, Only;
    var p := Except(e.0);
    KeysConcat(a, [e] + b);
    KeysConcat([e], b);
    KeysConcat(a, b);
    KeysOne(e.0, e.1);
    OnlyConcat(KeysOf(a), [e.0] + KeysOf(b), p);
    OnlyConcat([e.0], KeysOf(b), p);
    OnlyOne(e.0, p);
    SeqEmpty(KeysOf(b));
  }

  // ---------------------------------------------------------------- vector and index

  /** Vector and index are inverse to each other, and every key is filed in its normal
      form. */
  ghost predicate Indexed<T>(data: Table<T>, index: map<string, nat>) {
    && (forall i :: 0 <= i < |data| ==> data[i].0 in index && index[data[i].0] == i && IsNorm(data[i].0))
    && (forall k :: k in index ==> index[k] < |data| && data[index[k]].0 == k)
  }

  lemma IndexedDistinct<T>(data: Table<T>, index: map<string, nat>)
    requires Indexed(data, index)
    ensures Distinct(data)
  {
    forall i, j | 0 <= i < j < |data| ensures data[i].0 != data[j].0 {
      assert index[data[i].0] == i && index[data[j].0] == j;
    }
  }

  /** The index finds what a search of the vector finds. */
  lemma IndexIsWhere<T>(data: Table<T>, index: map<string, nat>, k: string)
    requires Indexed(data, index)
    ensures Where(data, k) == if k in index then Some(index[k]) else None
  {
    IndexedDistinct(data, index);
    if k in index {
      WhereAt(data, index[k]);
    } else {
      forall i | 0 <= i < |data| ensures data[i].0 != k { assert data[i].0 in index; }
      WhereNone(data, k);
    }
  }

  lemma IndexedAppend<T>(data: Table<T>, index: map<string, nat>, k: string, v: T)
    requires Indexed(data, index) && k !in index && IsNorm(k)
    ensures Indexed(data + [(k, v)], index[k := |data|])
  {
    hide IsNorm;
  }

  lemma IndexedUpdate<T>(data: Table<T>, index: map<string, nat>, i: nat, v: T)
    requires Indexed(data, index) && i < |data|
    ensures Indexed(data[i := (data[i].0, v)], index)
  {
    hide IsNorm;
  }

  /** An index with every later position moved down fits the vector without the entry. */
  lemma IndexedErase<T>(data: Table<T>, index: map<string, nat>, at: nat, moved: map<string, nat>)
    requires Indexed(data, index) && at < |data| && moved.Keys == index.Keys - {data[at].0}
    requires forall k :: k in moved ==> moved[k] == if index[k] <= at then index[k] else index[k] - 1
    ensures Indexed(data[..at] + data[at + 1..], moved)
  {
    hide IsNorm;
    var rest := data[..at] + data[at + 1..];
    forall i | 0 <= i < |rest|
      ensures rest[i].0 in moved && moved[rest[i].0] == i && IsNorm(rest[i].0)
    {
      var j := if i < at then i else i + 1;
      assert rest[i] == data[j] && index[data[j].0] == j && index[data[at].0] == at;
    }
    forall k | k in moved
      ensures moved[k] < |rest| && rest[moved[k]].0 == k
    {
      assert data[index[k]].0 == k && index[k] != at;
    }
  }

  /** The loop of `remove` over the index. */
  method MoveDown(index0: map<string, nat>, at: nat) returns (index: map<string, nat>)
    ensures index.Keys == index0.Keys
    ensures forall k :: k in index ==> index[k] == if index0[k] <= at then index0[k] else index0[k] - 1
  {
    index := index0;
    var todo := index.Keys;
    while todo != {}
      invariant todo <= index.Keys == index0.Keys
      invariant forall k :: k in index ==>
        index[k] == if k in todo || index0[k] <= at then index0[k] else index0[k] - 1
      decreases |todo|
    {
      var k :| k in todo;
      if index[k] > at {
        index := index[k := index[k] - 1];
      }
      todo := todo - {k};
    }
  }

  /** Entries stored one after the other. */
  function PutAll<T>(m: Table<T>, entries: Table<T>): Table<T> {
    if entries == [] then m
    else Put(PutAll(m, entries[..|entries| - 1]), Norm(entries[|entries| - 1].0), entries[|entries| - 1].1)
  }

  // ---------------------------------------------------------------- the class

  class OrderedMap<T> {
    const blank: T
    var data: Table<T>
    var index: map<string, nat>

    ghost predicate Valid()
      reads this
    {
      Indexed(data, index)
    }

    constructor (blank: T)
      ensures Valid() && data == [] && this.blank == blank
    {
      this.blank, data, index := blank, [], map[];
    }

    /** `operator[]`: the entry of the key, appended blank when there was none. */
    method At(key0: string) returns (at: nat)
      requires Valid()
      modifies this
      ensures Valid() && at < |data| && Where(data, Norm(key0)) == Some(at)
      ensures data == if Has(old(data), Norm(key0)) then old(data) else old(data) + [(Norm(key0), blank)]
    {
      var key := Norm(key0);
      NormIdempotent(key0);
      IndexIsWhere(data, index, key);
      hide IsNorm, Norm, Indexed;
      if key in index {
        at := index[key];
      } else {
        IndexedAppend(data, index, key, blank);
        at := |data|;
        index := index[key := at];
        data := data + [(key, blank)];
        IndexIsWhere(data, index, key);
      }
    }

    /** Assignment through the reference that `operator[]` returns. */
    method AssignAt(key0: string, value: T)
      requires Valid()
      modifies this
      ensures Valid() && data == Put(old(data), Norm(key0), value)
    {
      hide IsNorm, Norm, Indexed, Where;
      var at := At(key0);
      IndexedUpdate(data, index, at, value);
      data := data[at := (data[at].0, value)];
      assert Has(old(data), Norm(key0)) || at == |old(data)| by {
        WhereAppend(old(data), [(Norm(key0), blank)], Norm(key0));
        WhereFirst((Norm(key0), blank));
      }
    }

    method Get(key0: string) returns (value: T)
      requires Valid()
      ensures value == match Lookup(data, Norm(key0)) case Some(v) => v case None => blank
    {
      var key := Norm(key0);
      IndexIsWhere(data, index, key);
      value := if key in index then data[index[key]].1 else blank;
    }

    method Contains(key0: string) returns (b: bool)
      requires Valid()
      ensures b == Has(data, Norm(key0))
    {
      IndexIsWhere(data, index, Norm(key0));
      b := Norm(key0) in index;
    }

    method Set(key0: string, value: T)
      requires Valid()
      modifies this
      ensures Valid() && data == Put(old(data), Norm(key0), value)
    {
      var key := Norm(key0);
      NormIdempotent(key0);
      IndexIsWhere(data, index, key);
      hide IsNorm, Norm, Indexed, Where;
      if key in index {
        IndexedUpdate(data, index, index[key], value);
        data := data[index[key] := (key, value)];
      } else {
        IndexedAppend(data, index, key, value);
        index := index[key := |data|];
        data := data + [(key, value)];
      }
    }

    /** `set` of several entries, one after the other. */
    method SetAll(entries: Table<T>)
      requires Valid()
      modifies this
      ensures Valid() && data == PutAll(old(data), entries)
    {
      hide Norm, Indexed, Put;
      ghost var start := data;
      for i := 0 to |entries|
        invariant Valid() && data == PutAll(start, entries[..i])
      {
        assert entries[..i + 1][..i] == entries[..i];
        Set(entries[i].0, entries[i].1);
      }
      assert entries[..|entries|] == entries;
    }

    /** `remove`: the entry goes, and every later position in the index moves down. */
    method Remove(key0: string) returns (found: bool)
      requires Valid()
      modifies this
      ensures Valid() && data == Erase(old(data), Norm(key0)) && found == Has(old(data), Norm(key0))
    {
      var key := Norm(key0);
      IndexIsWhere(data, index, key);
      hide IsNorm, Norm, Indexed, Where;
      found := key in index;
      if found {
        var at := index[key];
        ghost var data0, index0 := data, index;
        data := data[..at] + data[at + 1..];
        index := MoveDown(index - {key}, at);
        IndexedErase(data0, index0, at, index);
      }
    }

    method Clear()
      modifies this
      ensures Valid() && data == []
    {
      data, index := [], map[];
    }
  }

  lemma WhereFirst<T>(e: (string, T))
    ensures Where([e], e.0) == Some(0)
  {
  }
}
