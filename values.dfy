/**
 * The decoded generic values table.go accepts, closed into one datatype,
 * and `convert`, which re-keys a map[interface{}]interface{} by the %v
 * text of its keys.
 *
 * A Go map is an association list here; the list order stands for the
 * map's iteration order, which Go leaves unspecified.
 */
module Values {
  import opened Wrappers

  /**
   * Str: a Go string. Other: any value none of the cases of makeCell
   * matches (ints, floats, bools, nil, typed slices, ...), given by its %v text.
   * StrMap: map[string]interface{}. AnyMap: map[interface{}]interface{}.
   * Arr: []interface{}.
   */
  datatype Value =
    | Str(s: string)
    | Other(text: string)
    | StrMap(entries: seq<Entry>)
    | AnyMap(pairs: seq<Pair>)
    | Arr(elems: seq<Value>)

  /** One key/value pair of a map[string]interface{}. */
  datatype Entry = Entry(key: string, value: Value)

  /**
   * One key/value pair of a map[interface{}]interface{}: the key is a Go
   * string, or another scalar given by its %v text.
   */
  datatype Pair =
    | StrKey(s: string, value: Value)
    | OtherKey(text: string, value: Value)

  /** fmt.Sprintf("%v", k) of the pair's key: a string key prints as itself. */
  function KeyText(p: Pair): string
  {
    match p
    case StrKey(s, _) => s
    case OtherKey(t, _) => t
  }

  function Max(a: nat, b: nat): nat
  {
    if a < b then b else a
  }

  /** Nesting depth of a value: the measure the renderer recurses on. */
  function Depth(v: Value): nat
  {
    match v
    case Str(_) => 0
    case Other(_) => 0
    case StrMap(es) => 1 + EntriesDepth(es)
    case AnyMap(ps) => 1 + PairsDepth(ps)
    case Arr(xs) => 1 + ElemsDepth(xs)
  }

  function EntriesDepth(es: seq<Entry>): nat
  {
    if es == [] then 0 else Max(Depth(es[0].value), EntriesDepth(es[1..]))
  }

  function PairsDepth(ps: seq<Pair>): nat
  {
    if ps == [] then 0 else Max(Depth(ps[0].value), PairsDepth(ps[1..]))
  }

  function ElemsDepth(xs: seq<Value>): nat
  {
    if xs == [] then 0 else Max(Depth(xs[0]), ElemsDepth(xs[1..]))
  }

  function Keys(es: seq<Entry>): set<string>
  {
    if es == [] then {} else {es[0].key} + Keys(es[1..])
  }

  /** What a Go map holds: no key twice. */
  predicate UniqueKeys(es: seq<Entry>)
  {
    es == [] || (es[0].key !in Keys(es[1..]) && UniqueKeys(es[1..]))
  }

  /** m[k] with the comma-ok form: the value stored under k, if any. */
  function Lookup(es: seq<Entry>, k: string): (r: Option<Value>)
    ensures r.Some? <==> k in Keys(es)
  {
    if es == [] then None
    else if es[0].key == k then Some(es[0].value)
    else Lookup(es[1..], k)
  }

  /**
   * m[k] = v. An existing key keeps its place and gets the new value;
   * a new key goes at the end.
   */
  function Put(es: seq<Entry>, k: string, v: Value): (r: seq<Entry>)
    ensures |es| <= |r| <= |es| + 1
    ensures EntriesDepth(r) <= Max(EntriesDepth(es), Depth(v))
  {
    if es == [] then [Entry(k, v)]
    else if es[0].key == k then [Entry(k, v)] + es[1..]
    else [es[0]] + Put(es[1..], k, v)
  }

  /** Put behaves as a map assignment: k now holds v, every other key is unchanged. */
  lemma {:induction false} PutLookup(es: seq<Entry>, k: string, v: Value)
    ensures Keys(Put(es, k, v)) == Keys(es) + {k}
    ensures Lookup(Put(es, k, v), k) == Some(v)
    ensures forall k' :: k' != k ==> Lookup(Put(es, k, v), k') == Lookup(es, k')
  {
    var r := Put(es, k, v);
    if es == [] {
      assert r[1..] == [];
    } else if es[0].key == k {
      assert r[1..] == es[1..];
    } else {
      PutLookup(es[1..], k, v);
      assert r[1..] == Put(es[1..], k, v);
    }
  }

  /** Put keeps a map's keys unique. */
  lemma {:induction false} PutUnique(es: seq<Entry>, k: string, v: Value)
    requires UniqueKeys(es)
    ensures UniqueKeys(Put(es, k, v))
  {
    var r := Put(es, k, v);
    if es == [] {
      assert r[1..] == [];
    } else if es[0].key == k {
      assert r[1..] == es[1..];
    } else {
      PutUnique(es[1..], k, v);
      PutLookup(es[1..], k, v);
      assert r[1..] == Put(es[1..], k, v);
    }
  }

  /** Put stores nothing but the old entries and the new one. */
  lemma {:induction false} PutEntries(es: seq<Entry>, k: string, v: Value)
    ensures forall e :: e in Put(es, k, v) ==> e in es || e == Entry(k, v)
  {
    if es != [] && es[0].key != k {
      PutEntries(es[1..], k, v);
    }
  }

  /** The loop of convert, run from the accumulated map acc over the pairs still to come. */
  function ConvertFrom(acc: seq<Entry>, ps: seq<Pair>): (r: seq<Entry>)
    ensures |acc| <= |r| <= |acc| + |ps|
    ensures EntriesDepth(r) <= Max(EntriesDepth(acc), PairsDepth(ps))
    decreases ps
  {
    if ps == [] then acc
    else ConvertFrom(Put(acc, KeyText(ps[0]), ps[0].value), ps[1..])
  }

  /** convert: the map[string]interface{} with every key replaced by its %v text. */
  function Converted(ps: seq<Pair>): (r: seq<Entry>)
    ensures |r| <= |ps|
    ensures EntriesDepth(r) <= PairsDepth(ps)
  {
    ConvertFrom([], ps)
  }

  /** table.go convert: fills a fresh map in one pass over the source map. */
  method Convert(src: seq<Pair>) returns (m: seq<Entry>)
    ensures m == Converted(src)
  {
    m := [];
    var i := 0;
    while i < |src|
      invariant 0 <= i <= |src|
      invariant ConvertFrom(m, src[i..]) == Converted(src)
    {
      assert src[i..][1..] == src[i + 1..];
      m := Put(m, KeyText(src[i]), src[i].value);
      i := i + 1;
    }
    assert src[i..] == [];
  }

  /** The %v texts of the source keys. */
  function KeyTexts(ps: seq<Pair>): set<string>
  {
    if ps == [] then {} else {KeyText(ps[0])} + KeyTexts(ps[1..])
  }

  lemma {:induction false} ConvertFromKeys(acc: seq<Entry>, ps: seq<Pair>)
    ensures Keys(ConvertFrom(acc, ps)) == Keys(acc) + KeyTexts(ps)
    ensures UniqueKeys(acc) ==> UniqueKeys(ConvertFrom(acc, ps))
    decreases ps
  {
    if ps != [] {
      var k, v := KeyText(ps[0]), ps[0].value;
      PutLookup(acc, k, v);
      if UniqueKeys(acc) {
        PutUnique(acc, k, v);
      }
      ConvertFromKeys(Put(acc, k, v), ps[1..]);
    }
  }

  /** convert keeps exactly the %v images of the source keys, each once. */
  lemma ConvertedKeys(ps: seq<Pair>)
    ensures Keys(Converted(ps)) == KeyTexts(ps)
    ensures UniqueKeys(Converted(ps))
  {
    ConvertFromKeys([], ps);
  }

  /** Each source pair after re-keying by the %v text of its key, in order. */
  function Rekeyed(ps: seq<Pair>): (r: seq<Entry>)
    ensures |r| == |ps|
  {
    if ps == [] then [] else [Entry(KeyText(ps[0]), ps[0].value)] + Rekeyed(ps[1..])
  }

  /** The i-th re-keyed entry is the i-th source pair under its key's %v text. */
  lemma {:induction false} RekeyedAt(ps: seq<Pair>, i: nat)
    requires i < |ps|
    ensures Rekeyed(ps)[i] == Entry(KeyText(ps[i]), ps[i].value)
  {
    if i > 0 {
      RekeyedAt(ps[1..], i - 1);
    }
  }

  lemma {:induction false} ConvertFromSource(acc: seq<Entry>, ps: seq<Pair>)
    ensures forall e :: e in ConvertFrom(acc, ps) ==> e in acc || e in Rekeyed(ps)
    decreases ps
  {
    if ps != [] {
      var acc' := Put(acc, KeyText(ps[0]), ps[0].value);
      PutEntries(acc, KeyText(ps[0]), ps[0].value);
      ConvertFromSource(acc', ps[1..]);
      assert Rekeyed(ps) == [Entry(KeyText(ps[0]), ps[0].value)] + Rekeyed(ps[1..]);
    }
  }

  /** convert invents no value: each entry is a source pair re-keyed by its key's %v text. */
  lemma ConvertedFromSource(ps: seq<Pair>)
    ensures forall e :: e in Converted(ps) ==> e in Rekeyed(ps)
  {
    ConvertFromSource([], ps);
  }

  /** The key texts of the source pairs are pairwise different. */
  predicate NoCollision(ps: seq<Pair>)
  {
    ps == [] || (KeyText(ps[0]) !in KeyTexts(ps[1..]) && NoCollision(ps[1..]))
  }

  lemma {:induction false} PutAbsent(es: seq<Entry>, k: string, v: Value)
    requires k !in Keys(es)
    ensures Put(es, k, v) == es + [Entry(k, v)]
  {
    if es != [] {
      PutAbsent(es[1..], k, v);
      assert es == [es[0]] + es[1..];
    }
  }

  lemma {:induction false} KeysAppend(a: seq<Entry>, b: seq<Entry>)
    ensures Keys(a + b) == Keys(a) + Keys(b)
  {
    if a != [] {
      assert (a + b)[1..] == a[1..] + b;
      KeysAppend(a[1..], b);
    } else {
      assert a + b == b;
    }
  }

  /** After one step of convert, the rest of the keys are still new. */
  lemma NoCollisionStep(acc: seq<Entry>, ps: seq<Pair>)
    requires ps != [] && NoCollision(ps)
    requires Keys(acc) !! KeyTexts(ps)
    ensures Keys(acc + [Entry(KeyText(ps[0]), ps[0].value)]) !! KeyTexts(ps[1..])
  {
    var e := Entry(KeyText(ps[0]), ps[0].value);
    KeysAppend(acc, [e]);
    assert Keys([e]) == {e.key} by {
      assert [e][1..] == [];
    }
  }

  /** A first key not yet in the accumulated map is appended to it. */
  lemma ConvertFromFresh(acc: seq<Entry>, ps: seq<Pair>)
    requires ps != [] && Keys(acc) !! KeyTexts(ps)
    ensures ConvertFrom(acc, ps) == ConvertFrom(acc + [Entry(KeyText(ps[0]), ps[0].value)], ps[1..])
  {
    assert KeyText(ps[0]) in KeyTexts(ps);
    PutAbsent(acc, KeyText(ps[0]), ps[0].value);
  }

  lemma RekeyedCons(acc: seq<Entry>, ps: seq<Pair>)
    requires ps != []
    ensures acc + [Entry(KeyText(ps[0]), ps[0].value)] + Rekeyed(ps[1..]) == acc + Rekeyed(ps)
  {
    assert Rekeyed(ps) == [Entry(KeyText(ps[0]), ps[0].value)] + Rekeyed(ps[1..]);
  }

  lemma {:induction false} ConvertFromNoCollision(acc: seq<Entry>, ps: seq<Pair>)
    requires NoCollision(ps)
    requires Keys(acc) !! KeyTexts(ps)
    ensures ConvertFrom(acc, ps) == acc + Rekeyed(ps)
    decreases ps
  {
    if ps == [] {
      assert acc + Rekeyed(ps) == acc;
    } else {
      var acc' := acc + [Entry(KeyText(ps[0]), ps[0].value)];
      ConvertFromFresh(acc, ps);
      NoCollisionStep(acc, ps);
      ConvertFromNoCollision(acc', ps[1..]);
      RekeyedCons(acc, ps);
    }
  }

  /** Without collisions convert only re-keys: same pairs, same iteration order. */
  lemma ConvertedNoCollision(ps: seq<Pair>)
    requires NoCollision(ps)
    ensures Converted(ps) == Rekeyed(ps)
  {
    ConvertFromNoCollision([], ps);
  }
}
