/** java.util.TreeMap<String, String> as the cursor's table description uses it:
    a list of entries kept strictly ordered by key under String.compareTo. */
module TreeMaps {

  /** `a.compareTo(b) < 0`: the first differing character decides, and a proper
      prefix comes first. */
  predicate Less(a: string, b: string)
  {
    if |a| == 0 then |b| > 0
    else if |b| == 0 then false
    else if a[0] != b[0] then a[0] < b[0]
    else Less(a[1..], b[1..])
  }

  lemma {:induction false} LessIrreflexive(a: string)
    ensures !Less(a, a)
  {
    if |a| > 0 {
      LessIrreflexive(a[1..]);
    }
  }

  lemma {:induction false} LessTotal(a: string, b: string)
    ensures a == b || Less(a, b) || Less(b, a)
  {
    if |a| > 0 && |b| > 0 && a[0] == b[0] {
      LessTotal(a[1..], b[1..]);
      if a[1..] == b[1..] {
        assert a == [a[0]] + a[1..] && b == [b[0]] + b[1..];
      }
    }
  }

  lemma {:induction false} LessTransitive(a: string, b: string, c: string)
    requires Less(a, b) && Less(b, c)
    ensures Less(a, c)
  {
    if |a| > 0 && a[0] == b[0] && b[0] == c[0] {
      LessTransitive(a[1..], b[1..], c[1..]);
    }
  }

  type Entries = seq<(string, string)>

  function Keys(es: Entries): set<string>
  {
    if es == [] then {} else {es[0].0} + Keys(es[1..])
  }

  /** Every name in `ks` comes after `x`. */
  ghost predicate AllAbove(x: string, ks: set<string>)
  {
    forall y :: y in ks ==> Less(x, y)
  }

  /** Keys strictly increasing: ordered by name, each name once. */
  ghost predicate Sorted(es: Entries)
  {
    es == [] || (AllAbove(es[0].0, Keys(es[1..])) && Sorted(es[1..]))
  }

  lemma {:induction false} KeysAt(es: Entries, j: int)
    requires 0 <= j < |es|
    ensures es[j].0 in Keys(es)
  {
    if j > 0 {
      KeysAt(es[1..], j - 1);
    }
  }

  /** A sorted list is ordered by name position by position. */
  lemma {:induction false} SortedOrdered(es: Entries, i: int, j: int)
    requires Sorted(es) && 0 <= i < j < |es|
    ensures Less(es[i].0, es[j].0)
  {
    if i == 0 {
      KeysAt(es[1..], j - 1);
    } else {
      SortedOrdered(es[1..], i - 1, j - 1);
    }
  }

  /** A sorted list holds each name once. */
  lemma SortedDistinct(es: Entries, i: int, j: int)
    requires Sorted(es) && 0 <= i < j < |es|
    ensures es[i].0 != es[j].0
  {
    SortedOrdered(es, i, j);
    LessIrreflexive(es[i].0);
  }

  /** The mapping the entries hold. */
  function AsMap(es: Entries): map<string, string>
  {
    if es == [] then map[] else AsMap(es[1..])[es[0].0 := es[0].1]
  }

  lemma {:induction false} AsMapKeys(es: Entries)
    ensures AsMap(es).Keys == Keys(es)
  {
    if es != [] {
      AsMapKeys(es[1..]);
    }
  }

  /** Each listed pair of a sorted list is what its mapping holds for that
      name: the rendered entries are exactly the mapping. */
  lemma {:induction false} SortedAsMapAt(es: Entries, j: int)
    requires Sorted(es) && 0 <= j < |es|
    ensures es[j].0 in AsMap(es) && AsMap(es)[es[j].0] == es[j].1
  {
    if j > 0 {
      SortedAsMapAt(es[1..], j - 1);
      SortedDistinct(es, 0, j);
    }
    AsMapKeys(es);
    KeysAt(es, j);
  }

  lemma AboveInsert(x: string, k: string, ks: set<string>)
    requires AllAbove(x, ks) && Less(x, k)
    ensures AllAbove(x, ks + {k})
  {
  }

  lemma AboveChain(k: string, y: string, ks: set<string>)
    requires AllAbove(y, ks) && Less(k, y)
    ensures AllAbove(k, ks + {y})
  {
    forall z | z in ks ensures Less(k, z) {
      LessTransitive(k, y, z);
    }
  }

  /** `TreeMap.put(k, v)`: replaces the entry for k, or inserts one in order. */
  function Put(es: Entries, k: string, v: string): (r: Entries)
    requires Sorted(es)
    ensures Sorted(r)
    ensures Keys(r) == Keys(es) + {k}
    ensures AsMap(r) == AsMap(es)[k := v]
  {
    if es == [] then [(k, v)]
    else if es[0].0 == k then [(k, v)] + es[1..]
    else if Less(k, es[0].0) then
      AboveChain(k, es[0].0, Keys(es[1..]));
      [(k, v)] + es
    else
      var rest := Put(es[1..], k, v);
      LessTotal(k, es[0].0);
      AboveInsert(es[0].0, k, Keys(es[1..]));
      [es[0]] + rest
  }

  /** The entries after putting each pair of `ps` in turn into an empty map. */
  function FromPairs(ps: seq<(string, string)>): (r: Entries)
    ensures Sorted(r)
  {
    if ps == [] then [] else Put(FromPairs(ps[..|ps| - 1]), ps[|ps| - 1].0, ps[|ps| - 1].1)
  }

  /** Every name of `ps` gets exactly one entry, holding the value its last
      occurrence in `ps` carries: later pairs overwrite earlier ones. */
  lemma {:induction false} FromPairsLastWins(ps: seq<(string, string)>, i: int)
    requires 0 <= i < |ps|
    requires forall j :: i < j < |ps| ==> ps[j].0 != ps[i].0
    ensures ps[i].0 in AsMap(FromPairs(ps))
    ensures AsMap(FromPairs(ps))[ps[i].0] == ps[i].1
  {
    var init := ps[..|ps| - 1];
    if i < |ps| - 1 {
      assert init[i] == ps[i];
      FromPairsLastWins(init, i);
    }
  }

  /** The names with an entry are exactly the names of `ps`. */
  lemma {:induction false} FromPairsKeys(ps: seq<(string, string)>)
    ensures Keys(FromPairs(ps)) == set p | p in ps :: p.0
  {
    if ps != [] {
      var init, last := ps[..|ps| - 1], ps[|ps| - 1];
      FromPairsKeys(init);
      assert ps == init + [last];
      var names, initNames := set p | p in ps :: p.0, set p | p in init :: p.0;
      forall x | x in names ensures x in initNames + {last.0} {
        var p :| p in ps && p.0 == x;
        if p != last {
          assert p in init;
        }
      }
      assert names == initNames + {last.0};
    }
  }

  /** `AbstractMap.toString()`: "{k1=v1, k2=v2}". */
  function Render(es: Entries): string
  {
    "{" + Join(es) + "}"
  }

  function Join(es: Entries): string
  {
    if es == [] then ""
    else if |es| == 1 then es[0].0 + "=" + es[0].1
    else es[0].0 + "=" + es[0].1 + ", " + Join(es[1..])
  }
}
