/** The MAC address table of common/cmm_data.c: a fixed array of entries, indexed by hash chains. */
module MacTableSpec {
  type Addr = seq<bv8>

  function HashByte(a: Addr): bv8
    requires |a| == 6
  {
    a[0] ^ a[1] ^ a[2] ^ a[3] ^ a[4] ^ a[5]
  }

  /** MAC_ADDR_HASH_INDEX; an address is six bytes. */
  function HashIndex(a: Addr): (h: nat)
    ensures h < 256
  {
    if |a| == 6 then HashByte(a) as int else 0
  }

  /** An entry: vacant, valid as a client, or valid as a direct-link peer only. */
  datatype Slot = Free | Client(addr: Addr) | Dls(addr: Addr)

  predicate Used(s: Slot) { !s.Free? }

  // ------------------------------------------------------------- the table without its index

  function CountUsed(v: seq<Slot>): (n: nat)
    ensures n <= |v|
  {
    if v == [] then 0 else CountUsed(v[..|v| - 1]) + if Used(v[|v| - 1]) then 1 else 0
  }

  lemma {:induction false} CountUpdate(v: seq<Slot>, i: nat, s: Slot)
    requires i < |v|
    ensures CountUsed(v[i := s]) == CountUsed(v) - (if Used(v[i]) then 1 else 0) + (if Used(s) then 1 else 0)
  {
    var w := v[i := s];
    if i == |v| - 1 {
      assert w[..i] == v[..i];
    } else {
      assert w[..|v| - 1] == v[..|v| - 1][i := s];
      CountUpdate(v[..|v| - 1], i, s);
    }
  }

  lemma {:induction false} CountFull(v: seq<Slot>)
    ensures CountUsed(v) == |v| <==> forall i :: 0 <= i < |v| ==> Used(v[i])
  {
    if v != [] {
      CountFull(v[..|v| - 1]);
    }
  }

  /** No two used entries have the same address. */
  ghost predicate Unique(v: seq<Slot>) {
    forall i, j :: 0 <= i < j < |v| && Used(v[i]) && Used(v[j]) ==> v[i].addr != v[j].addr
  }

  /** What a linear scan finds: the first used entry from index i on with that address, or -1. */
  function Scan(v: seq<Slot>, a: Addr, i: nat): int
    requires i <= |v|
    decreases |v| - i
  {
    if i == |v| then -1 else if Used(v[i]) && v[i].addr == a then i else Scan(v, a, i + 1)
  }

  lemma {:induction false} ScanFinds(v: seq<Slot>, a: Addr, i: nat)
    requires i <= |v|
    ensures var r := Scan(v, a, i); r == -1 || (i <= r < |v| && Used(v[r]) && v[r].addr == a)
    ensures Scan(v, a, i) == -1 ==> forall j :: i <= j < |v| && Used(v[j]) ==> v[j].addr != a
    decreases |v| - i
  {
    if i < |v| {
      ScanFinds(v, a, i + 1);
    }
  }

  /** The first vacancy from i on, or -1. */
  function Vacancy(v: seq<Slot>, i: nat): int
    requires i <= |v|
    decreases |v| - i
  {
    if i == |v| then -1 else if !Used(v[i]) then i else Vacancy(v, i + 1)
  }

  lemma {:induction false} VacancyIs(v: seq<Slot>, i: nat)
    requires i <= |v|
    ensures var r := Vacancy(v, i); if r == -1 then forall j :: i <= j < |v| ==> Used(v[j])
            else i <= r < |v| && !Used(v[r]) && forall j :: i <= j < r ==> Used(v[j])
    decreases |v| - i
  {
    if i < |v| {
      VacancyIs(v, i + 1);
    }
  }

  // ------------------------------------------------------------- chains

  /** The index a walk along the chain stops at: the first entry that is not a client or has the
      address, or -1 at the end. */
  function Walk(v: seq<Slot>, chain: seq<nat>, a: Addr): int
    requires forall k :: 0 <= k < |chain| ==> chain[k] < |v| && Used(v[chain[k]])
  {
    if chain == [] then -1
    else if !v[chain[0]].Client? || v[chain[0]].addr == a then chain[0]
    else Walk(v, chain[1..], a)
  }

  /** The chain holds each used entry whose address hashes to h, once, and nothing else. */
  ghost predicate Indexes(v: seq<Slot>, chain: seq<nat>, h: nat) {
    && (forall k :: 0 <= k < |chain| ==> chain[k] < |v| && Used(v[chain[k]]) && HashIndex(v[chain[k]].addr) == h)
    && (forall j, k :: 0 <= j < k < |chain| ==> chain[j] != chain[k])
    && (forall i :: 0 <= i < |v| && Used(v[i]) && HashIndex(v[i].addr) == h ==> i in chain)
  }

  predicate Other(v: seq<Slot>, i: nat, a: Addr) { i < |v| && Used(v[i]) && v[i].addr != a }

  /** A direct-link peer with another address comes before the address on the chain, or the address
      is not there at all. */
  ghost predicate Shadowed(v: seq<Slot>, chain: seq<nat>, a: Addr)
    requires forall k :: 0 <= k < |chain| ==> chain[k] < |v| && Used(v[chain[k]])
  {
    exists k :: 0 <= k < |chain| && v[chain[k]].Dls? && forall j :: 0 <= j <= k ==> Other(v, chain[j], a)
  }

  lemma {:induction false} WalkStops(v: seq<Slot>, chain: seq<nat>, a: Addr)
    requires forall k :: 0 <= k < |chain| ==> chain[k] < |v| && Used(v[chain[k]])
    ensures var r := Walk(v, chain, a);
            if r == -1 then !Shadowed(v, chain, a) && forall k :: 0 <= k < |chain| ==> v[chain[k]].addr != a
            else r in chain && (Shadowed(v, chain, a) <==> v[r].addr != a)
  {
    if chain != [] && v[chain[0]].Client? && v[chain[0]].addr != a {
      var rest := chain[1..];
      WalkStops(v, rest, a);
      ShadowedTail(v, chain, a);
    } else if chain != [] && v[chain[0]].addr != a {
      assert v[chain[0]].Dls?;
    }
  }

  lemma ShadowedTail(v: seq<Slot>, chain: seq<nat>, a: Addr)
    requires forall k :: 0 <= k < |chain| ==> chain[k] < |v| && Used(v[chain[k]])
    requires chain != [] && v[chain[0]].Client? && v[chain[0]].addr != a
    ensures Shadowed(v, chain, a) <==> Shadowed(v, chain[1..], a)
  {
    var rest := chain[1..];
    if Shadowed(v, chain, a) {
      var k :| 0 <= k < |chain| && v[chain[k]].Dls? && forall j :: 0 <= j <= k ==> Other(v, chain[j], a);
      assert rest[k - 1] == chain[k];
      assert forall j :: 0 <= j <= k - 1 ==> rest[j] == chain[j + 1];
    }
    if Shadowed(v, rest, a) {
      var k :| 0 <= k < |rest| && v[rest[k]].Dls? && forall j :: 0 <= j <= k ==> Other(v, rest[j], a);
      forall j | 0 <= j <= k + 1
        ensures Other(v, chain[j], a)
      {
        if j > 0 {
          assert chain[j] == rest[j - 1];
        }
      }
      assert chain[k + 1] == rest[k];
    }
  }

  /** With unique addresses, the walk finds what a linear scan finds exactly when no direct-link peer
      shadows the address. */
  lemma WalkIsScan(v: seq<Slot>, chain: seq<nat>, a: Addr)
    requires Unique(v) && Indexes(v, chain, HashIndex(a))
    ensures Walk(v, chain, a) == Scan(v, a, 0) <==> !Shadowed(v, chain, a)
  {
    WalkStops(v, chain, a);
    ScanFinds(v, a, 0);
  }

  /** Without direct-link peers nothing is shadowed. */
  lemma ClientsOnly(v: seq<Slot>, chain: seq<nat>, a: Addr)
    requires Unique(v) && Indexes(v, chain, HashIndex(a)) && forall i :: 0 <= i < |v| ==> !v[i].Dls?
    ensures Walk(v, chain, a) == Scan(v, a, 0)
  {
    WalkIsScan(v, chain, a);
  }
}

module MacTable {
  import opened MacTableSpec

  /** The k-th index of a chain, or NULL (-1) past its end. */
  function At(chain: seq<nat>, k: nat): int { if k < |chain| then chain[k] else -1 }

  /** Following pNext from the head visits the chain. */
  ghost predicate Linked(next: seq<int>, head: int, chain: seq<nat>) {
    head == At(chain, 0) && forall k :: 0 <= k < |chain| ==> chain[k] < |next| && next[chain[k]] == At(chain, k + 1)
  }

  ghost predicate Chained(v: seq<Slot>, next: seq<int>, hash: seq<int>, chains: seq<seq<nat>>) {
    |hash| == |chains| == 256 && |v| == |next| == 32 &&
    forall h :: 0 <= h < 256 ==> Indexes(v, chains[h], h) && Linked(next, hash[h], chains[h])
  }

  lemma {:induction false} LinkedAppend(next: seq<int>, head: int, chain: seq<nat>, i: nat, next': seq<int>, head': int)
    requires Linked(next, head, chain) && i !in chain && i < |next| && next[i] == -1
    requires if chain == [] then next' == next && head' == i
             else head' == head && next' == next[chain[|chain| - 1] := i]
    requires forall j, k :: 0 <= j < k < |chain| ==> chain[j] != chain[k]
    ensures Linked(next', head', chain + [i])
  {
    var c := chain + [i];
    forall k | 0 <= k < |c|
      ensures next'[c[k]] == At(c, k + 1)
    {
      if chain != [] && k < |chain| - 1 {
        assert chain[k] != chain[|chain| - 1];
        assert next'[c[k]] == next[chain[k]] == At(chain, k + 1);
      }
    }
  }

  lemma LinkedOther(next: seq<int>, head: int, chain: seq<nat>, x: nat, y: int)
    requires Linked(next, head, chain) && x !in chain && x < |next|
    ensures Linked(next[x := y], head, chain)
  {
  }

  function Without(chain: seq<nat>, k: nat): (c: seq<nat>)
    requires k < |chain|
    ensures |c| == |chain| - 1
  {
    chain[..k] + chain[k + 1..]
  }

  function Skip(k: nat, j: nat): nat { if j < k then j else j + 1 }

  lemma WithoutAt(chain: seq<nat>, k: nat)
    requires k < |chain|
    ensures forall j {:trigger Without(chain, k)[j]} :: 0 <= j < |chain| - 1 ==>
              Without(chain, k)[j] == chain[Skip(k, j)]
  {
  }

  /** Unlinking the k-th entry, and clearing it. */
  lemma LinkedRemove(next: seq<int>, head: int, chain: seq<nat>, k: nat, next': seq<int>, head': int)
    requires Linked(next, head, chain) && k < |chain| && |next'| == |next|
    requires forall j, l :: 0 <= j < l < |chain| ==> chain[j] != chain[l]
    requires head' == if k == 0 then next[chain[0]] else head
    requires forall j :: 0 <= j < |chain| && j != k ==> next'[chain[j]] == next[chain[if j + 1 == k then k else j]]
    ensures Linked(next', head', Without(chain, k))
  {
    var c := Without(chain, k);
    WithoutAt(chain, k);
    hide Without;
    forall j | 0 <= j < |c|
      ensures c[j] < |next'| && next'[c[j]] == At(c, j + 1)
    {
      var o := Skip(k, j);
      assert c[j] == chain[o];
      assert next'[chain[o]] == At(chain, if o + 1 == k then k + 1 else o + 1);
    }
  }

  /** The two writes of an unlink, seen through the chain. */
  lemma Unlinked(next: seq<int>, chain: seq<nat>, k: nat, next': seq<int>)
    requires k < |chain| && (forall j :: 0 <= j < |chain| ==> chain[j] < |next|)
    requires forall j, l :: 0 <= j < l < |chain| ==> chain[j] != chain[l]
    requires next' == (if k == 0 then next else next[chain[k - 1] := next[chain[k]]])[chain[k] := -1]
    ensures forall j :: 0 <= j < |chain| && j != k ==> next'[chain[j]] == next[chain[if j + 1 == k then k else j]]
  {
    forall j | 0 <= j < |chain| && j != k
      ensures next'[chain[j]] == next[chain[if j + 1 == k then k else j]]
    {
      assert chain[j] != chain[k];
      if k > 0 && j != k - 1 {
        assert chain[j] != chain[k - 1];
      }
    }
  }

  lemma IndexesInsert(v: seq<Slot>, chain: seq<nat>, h: nat, i: nat, s: Slot)
    requires Indexes(v, chain, h) && i < |v| && !Used(v[i]) && Used(s)
    ensures Indexes(v[i := s], if HashIndex(s.addr) == h then chain + [i] else chain, h)
    ensures i !in chain
  {
    hide HashIndex;
    var c := if HashIndex(s.addr) == h then chain + [i] else chain;
    var w := v[i := s];
    forall j | 0 <= j < |w| && Used(w[j]) && HashIndex(w[j].addr) == h
      ensures j in c
    {
      if j == i {
        assert c[|chain|] == i;
      } else {
        assert j in chain;
      }
    }
  }

  lemma IndexesRemove(v: seq<Slot>, chain: seq<nat>, h: nat, i: nat, k: nat)
    requires Indexes(v, chain, h) && i < |v| && k < |chain| && chain[k] == i
    ensures Indexes(v[i := Free], Without(chain, k), h)
  {
    hide HashIndex;
    var c := Without(chain, k);
    var w := v[i := Free];
    WithoutAt(chain, k);
    hide Without;
    forall j, l | 0 <= j < l < |c|
      ensures c[j] != c[l]
    {
      assert chain[Skip(k, j)] != chain[Skip(k, l)];
    }
    forall j | 0 <= j < |c|
      ensures c[j] < |w| && Used(w[c[j]]) && HashIndex(w[c[j]].addr) == h
    {
      assert c[j] == chain[Skip(k, j)] && chain[Skip(k, j)] != chain[k];
    }
    forall j | 0 <= j < |w| && Used(w[j]) && HashIndex(w[j].addr) == h
      ensures j in c
    {
      var l :| 0 <= l < |chain| && chain[l] == j;
      assert c[if l < k then l else l - 1] == j;
    }
  }

  lemma IndexesOther(v: seq<Slot>, chain: seq<nat>, h: nat, i: nat)
    requires Indexes(v, chain, h) && i < |v| && Used(v[i]) && HashIndex(v[i].addr) != h
    ensures Indexes(v[i := Free], chain, h) && i !in chain
  {
    hide HashIndex;
  }

  class Table {
    // Content[i] is the slot, with its pNext beside it.
    const slots: array<Slot>
    const next: array<int>
    const hash: array<int>
    var size: nat
    ghost var chains: seq<seq<nat>>

    ghost predicate Valid()
      reads this, slots, next, hash
    {
      && slots.Length == next.Length == 32 && hash.Length == 256 && next != hash
      && size == CountUsed(slots[..])
      && Chained(slots[..], next[..], hash[..], chains)
      && forall i :: 0 <= i < 32 && !Used(slots[i]) ==> next[i] == -1
    }

    constructor ()
      ensures Valid() && forall i :: 0 <= i < 32 ==> slots[i] == Free
      ensures |chains| == 256 && forall h :: 0 <= h < 256 ==> chains[h] == []
      ensures fresh(slots) && fresh(next) && fresh(hash)
    {
      slots := new Slot[32](_ => Free);
      next := new int[32](_ => -1);
      hash := new int[256](_ => -1);
      size := 0;
      chains := seq(256, _ => []);
      new;
      NoneUsed(slots[..]);
    }

    /** MacTableLookup: an index, or -1 for NULL. */
    method Lookup(a: Addr) returns (r: int)
      requires Valid()
      ensures r == Walk(slots[..], chains[HashIndex(a)], a)
    {
      hide HashIndex;
      ghost var chain := chains[HashIndex(a)];
      ghost var v := slots[..];
      r := hash[HashIndex(a)];
      ghost var k := 0;
      assert chain[0..] == chain;
      while r != -1 && slots[r].Client?
        invariant k <= |chain| && r == At(chain, k)
        invariant Walk(v, chain, a) == Walk(v, chain[k..], a)
        decreases |chain| - k
      {
        if slots[r].addr == a {
          break;
        }
        assert chain[k..][1..] == chain[k + 1..];
        r := next[r];
        k := k + 1;
      }
    }

    /** The search for a vacancy. */
    method FindVacancy(first: nat) returns (r: int)
      requires slots.Length == 32 && first <= 32
      ensures r == Vacancy(slots[..], first)
    {
      r := -1;
      for i := first to 32
        invariant r == -1 && Vacancy(slots[..], first) == Vacancy(slots[..], i)
      {
        if !Used(slots[i]) {
          return i;
        }
      }
    }

    /** The end of a non-empty chain. */
    method Last(h: nat) returns (p: nat)
      requires Valid() && h < 256 && chains[h] != []
      ensures p == chains[h][|chains[h]| - 1]
    {
      ghost var chain := chains[h];
      ghost var k := 0;
      p := hash[h];
      while next[p] != -1
        invariant k < |chain| && p == chain[k]
        decreases |chain| - k
      {
        p := next[p];
        k := k + 1;
      }
    }

    /** MacTableInsertEntry: the index of the new entry, or -1 for NULL. `peer` tells a direct-link
        entry, `first` is 2 for an infrastructure station and 1 otherwise. */
    method Insert(a: Addr, peer: bool, first: nat) returns (r: int)
      requires Valid() && first <= 32
      modifies this, slots, next, hash
      ensures Valid()
      ensures r == if old(size) >= 32 then -1 else Vacancy(old(slots[..]), first)
      ensures r == -1 ==> slots[..] == old(slots[..]) && chains == old(chains)
      ensures r != -1 ==> 0 <= r < 32 && slots[..] == old(slots[..])[r := if peer then Dls(a) else Client(a)]
      ensures r != -1 ==> chains == old(chains)[HashIndex(a) := old(chains)[HashIndex(a)] + [r as nat]]
    {
      hide HashIndex, CountUsed, Chained;
      if size >= 32 {
        return -1;
      }
      r := FindVacancy(first);
      VacancyIs(slots[..], first);
      if r == -1 {
        return;
      }
      var s := if peer then Dls(a) else Client(a);
      CountUpdate(slots[..], r, s);
      var h := HashIndex(a);
      ghost var v, n, g := slots[..], next[..], hash[..];
      HeadEmpty(v, n, g, chains, h);
      if hash[h] == -1 {
        hash[h] := r;
      } else {
        var p := Last(h);
        next[p] := r;
      }
      slots[r] := s;
      size := size + 1;
      ChainedInsert(v, n, g, chains, r, s, next[..], hash[..]);
      assert slots[..] == v[r := s];
      chains := chains[h := chains[h] + [r as nat]];
    }

    /** The entry before w on its chain, or -1. */
    method Before(h: nat, w: nat, ghost k: nat) returns (prev: int)
      requires Valid() && h < 256 && k < |chains[h]| && chains[h][k] == w
      ensures prev == if k == 0 then -1 else chains[h][k - 1] as int
    {
      ghost var chain := chains[h];
      assert Indexes(slots[..], chain, h);
      prev := -1;
      var probe := hash[h];
      ghost var j := 0;
      while probe != w
        invariant j <= k && probe == chain[j] && prev == if j == 0 then -1 else chain[j - 1] as int
        decreases k - j
      {
        prev := probe;
        probe := next[probe];
        j := j + 1;
      }
    }

    /** MacTableDeleteEntry: refuses an index beyond the table; otherwise removes the entry if it is
        used and has that address. */
    method Delete(w: nat, a: Addr) returns (ok: bool)
      requires Valid()
      modifies this, slots, next, hash
      ensures Valid()
      ensures ok == (w < 32)
      ensures slots[..] == if w < 32 && Used(old(slots[w])) && old(slots[w]).addr == a
                           then old(slots[..])[w := Free] else old(slots[..])
    {
      hide HashIndex, CountUsed, Chained;
      if w >= 32 {
        return false;
      }
      if Used(slots[w]) && slots[w].addr == a {
        var h := HashIndex(a);
        ghost var v, n, g := slots[..], next[..], hash[..];
        ghost var k := OnChain(v, n, g, chains, w);
        var prev := Before(h, w, k);
        if prev == -1 {
          hash[h] := next[w];
        } else {
          next[prev] := next[w];
        }
        slots[w] := Free;
        next[w] := -1;
        CountUpdate(v, w, Free);
        assert slots[..] == v[w := Free];
        size := size - 1;
        ChainedRemove(v, n, g, chains, w, k, next[..], hash[..]);
        chains := chains[h := Without(chains[h], k)];
      }
      ok := true;
    }
  }

  /** A used entry is on the chain of its address. */
  lemma OnChain(v: seq<Slot>, n: seq<int>, g: seq<int>, chains: seq<seq<nat>>, w: nat) returns (k: nat)
    requires Chained(v, n, g, chains) && w < 32 && Used(v[w])
    ensures |chains| == 256 && k < |chains[HashIndex(v[w].addr)]| && chains[HashIndex(v[w].addr)][k] == w
    ensures k > 0 ==> chains[HashIndex(v[w].addr)][k - 1] < 32 && Used(v[chains[HashIndex(v[w].addr)][k - 1]])
    ensures g[HashIndex(v[w].addr)] == chains[HashIndex(v[w].addr)][0]
  {
    hide HashIndex;
    var chain := chains[HashIndex(v[w].addr)];
    assert Indexes(v, chain, HashIndex(v[w].addr));
    k :| 0 <= k < |chain| && chain[k] == w;
  }

  lemma ChainedRemove(v: seq<Slot>, n: seq<int>, g: seq<int>, chains: seq<seq<nat>>, w: nat, k: nat,
                      n': seq<int>, g': seq<int>)
    requires Chained(v, n, g, chains) && w < 32 && Used(v[w])
    requires var h := HashIndex(v[w].addr);
             k < |chains[h]| && chains[h][k] == w && (k > 0 ==> chains[h][k - 1] < 32) &&
             g' == (if k == 0 then g[h := n[w]] else g) &&
             n' == (if k == 0 then n else n[chains[h][k - 1] := n[w]])[w := -1]
    ensures var h := HashIndex(v[w].addr); Chained(v[w := Free], n', g', chains[h := Without(chains[h], k)])
  {
    hide HashIndex, Without;
    var h := HashIndex(v[w].addr);
    var c := chains[h := Without(chains[h], k)];
    forall x | 0 <= x < 256
      ensures Indexes(v[w := Free], c[x], x) && Linked(n', g'[x], c[x])
    {
      assert Indexes(v, chains[x], x) && Linked(n, g[x], chains[x]);
      if x == h {
        IndexesRemove(v, chains[h], h, w, k);
        Unlinked(n, chains[h], k, n');
        LinkedRemove(n, g[h], chains[h], k, n', g'[h]);
      } else {
        IndexesOther(v, chains[x], x, w);
        OtherChain(v, chains, h, x, k);
        LinkedOther(n, g[x], chains[x], w, -1);
        if k > 0 {
          var p := chains[h][k - 1];
          LinkedOther(n, g[x], chains[x], p, n[w]);
          LinkedOther(n[p := n[w]], g[x], chains[x], w, -1);
        }
      }
    }
  }

  /** Entries of one chain are not on another. */
  lemma OtherChain(v: seq<Slot>, chains: seq<seq<nat>>, h: nat, x: nat, k: nat)
    requires h < |chains| && x < |chains| && x != h && Indexes(v, chains[h], h) && Indexes(v, chains[x], x)
    requires k < |chains[h]|
    ensures chains[h][k] !in chains[x] && (k > 0 ==> chains[h][k - 1] !in chains[x])
  {
    hide HashIndex;
  }

  lemma HeadEmpty(v: seq<Slot>, n: seq<int>, g: seq<int>, chains: seq<seq<nat>>, h: nat)
    requires Chained(v, n, g, chains) && h < 256
    ensures |chains| == 256 && (g[h] == -1 <==> chains[h] == [])
    ensures chains[h] != [] ==> chains[h][|chains[h]| - 1] < 32 && Used(v[chains[h][|chains[h]| - 1]])
  {
    assert Indexes(v, chains[h], h);
  }

  lemma ChainedInsert(v: seq<Slot>, n: seq<int>, g: seq<int>, chains: seq<seq<nat>>, r: nat, s: Slot,
                      n': seq<int>, g': seq<int>)
    requires Chained(v, n, g, chains) && r < 32 && !Used(v[r]) && n[r] == -1 && Used(s)
    requires var h := HashIndex(s.addr);
             if g[h] == -1 then n' == n && g' == g[h := r]
             else g' == g && n' == n[chains[h][|chains[h]| - 1] := r]
    ensures Chained(v[r := s], n', g', chains[HashIndex(s.addr) := chains[HashIndex(s.addr)] + [r]])
  {
    hide HashIndex;
    var h := HashIndex(s.addr);
    var c := chains[h := chains[h] + [r]];
    forall x | 0 <= x < 256
      ensures Indexes(v[r := s], c[x], x) && Linked(n', g'[x], c[x])
    {
      IndexesInsert(v, chains[x], x, r, s);
      if x == h {
        LinkedAppend(n, g[h], chains[h], r, n', g'[h]);
      } else if g[h] != -1 {
        var p := chains[h][|chains[h]| - 1];
        assert p !in chains[x];
        LinkedOther(n, g[x], chains[x], p, r);
      }
    }
  }

  lemma {:induction false} NoneUsed(v: seq<Slot>)
    requires forall i :: 0 <= i < |v| ==> !Used(v[i])
    ensures CountUsed(v) == 0
  {
    if v != [] {
      NoneUsed(v[..|v| - 1]);
    }
  }

  // ------------------------------------------------------------- runs

  datatype Op = Add(addr: Addr, peer: bool, first: nat) | Remove(wcid: nat, addr: Addr)

  /** The effect of an operation on the entries. */
  function Apply(v: seq<Slot>, op: Op): (w: seq<Slot>)
    requires |v| == 32
    ensures |w| == 32
  {
    match op
    case Add(a, peer, first) =>
      var r := if first > 32 then -1 else Vacancy(v, first);
      VacancyIs(v, if first > 32 then 32 else first);
      if r == -1 then v else v[r := if peer then Dls(a) else Client(a)]
    case Remove(w, a) => if w < 32 && Used(v[w]) && v[w].addr == a then v[w := Free] else v
  }

  function Run(ops: seq<Op>): (v: seq<Slot>)
    ensures |v| == 32
  {
    if ops == [] then seq(32, _ => Free) else Apply(Run(ops[..|ops| - 1]), ops[|ops| - 1])
  }

  /** No insertion repeats an address that is in the table at that time. */
  ghost predicate FreshAddresses(ops: seq<Op>) {
    forall i :: 0 <= i < |ops| && ops[i].Add? ==> ops[i].first <= 32 && Scan(Run(ops[..i]), ops[i].addr, 0) == -1
  }

  lemma {:induction false} RunUnique(ops: seq<Op>)
    requires FreshAddresses(ops)
    ensures Unique(Run(ops))
  {
    if ops != [] {
      var before := ops[..|ops| - 1];
      assert forall i :: 0 <= i < |before| ==> before[..i] == ops[..i];
      RunUnique(before);
      var op := ops[|ops| - 1];
      if op.Add? {
        ScanFinds(Run(before), op.addr, 0);
        VacancyIs(Run(before), op.first);
      }
    }
  }

  /** For every address, the walk of a look-up ends where a linear scan ends, exactly when no
      direct-link peer shadows the address. */
  ghost predicate LookupsAgree(v: seq<Slot>, chains: seq<seq<nat>>) {
    |chains| == 256 &&
    forall a: Addr :: Indexes(v, chains[HashIndex(a)], HashIndex(a)) &&
      (Walk(v, chains[HashIndex(a)], a) == Scan(v, a, 0) <==> !Shadowed(v, chains[HashIndex(a)], a))
  }

  lemma LookupLaw(v: seq<Slot>, n: seq<int>, g: seq<int>, chains: seq<seq<nat>>)
    requires Chained(v, n, g, chains) && Unique(v)
    ensures LookupsAgree(v, chains)
  {
    hide HashIndex, Walk, Scan;
    forall a: Addr
      ensures Indexes(v, chains[HashIndex(a)], HashIndex(a)) &&
              (Walk(v, chains[HashIndex(a)], a) == Scan(v, a, 0) <==> !Shadowed(v, chains[HashIndex(a)], a))
    {
      WalkIsScan(v, chains[HashIndex(a)], a);
    }
  }

  /** Any run of insertions of fresh addresses and deletions keeps entries and index in agreement: the
      table counts its used entries, and a look-up returns what a linear scan finds unless a
      direct-link peer shadows the address. */
  method Replay(ops: seq<Op>) returns (t: Table)
    requires FreshAddresses(ops)
    ensures t.Valid() && t.slots[..] == Run(ops) && t.size == CountUsed(Run(ops)) && Unique(Run(ops))
    ensures LookupsAgree(t.slots[..], t.chains)
  {
    hide Vacancy, HashIndex, LookupsAgree, CountUsed, Chained;
    t := new Table();
    assert t.slots[..] == Run([]);
    for i := 0 to |ops|
      invariant fresh(t) && fresh(t.slots) && fresh(t.next) && fresh(t.hash)
      invariant t.Valid() && t.slots[..] == Run(ops[..i])
    {
      assert ops[..i + 1][..i] == ops[..i];
      ghost var v := Run(ops[..i]);
      match ops[i]
      case Add(a, peer, first) =>
        FullHasNoVacancy(v, first);
        var _ := t.Insert(a, peer, first);
      case Remove(w, a) =>
        var _ := t.Delete(w, a);
    }
    assert ops[..|ops|] == ops;
    RunUnique(ops);
    LookupLaw(t.slots[..], t.next[..], t.hash[..], t.chains);
  }

  lemma FullHasNoVacancy(v: seq<Slot>, first: nat)
    requires first <= |v|
    ensures CountUsed(v) >= |v| ==> Vacancy(v, first) == -1
  {
    CountFull(v);
    VacancyIs(v, first);
  }

  // ------------------------------------------------------------- what the operations mean

  predicate IsHash(a: bv8, b: bv8, c: bv8, d: bv8, e: bv8, f: bv8, h: bv8) { h == a ^ b ^ c ^ d ^ e ^ f }

  lemma HashByteIs(a: Addr)
    requires |a| == 6
    ensures IsHash(a[0], a[1], a[2], a[3], a[4], a[5], HashByte(a))
  {
  }

  predicate Sums(a: bv8, p: bv8, h: bv8) { h == a ^ p }

  lemma FirstApart(a: bv8, b: bv8, c: bv8, d: bv8, e: bv8, f: bv8, h: bv8)
    requires IsHash(a, b, c, d, e, f, h)
    ensures Sums(a, b ^ c ^ d ^ e ^ f, h)
  {
  }

  lemma Back(a: bv8, p: bv8, h: bv8)
    requires Sums(a, p, h)
    ensures Sums(h, p, a)
  {
  }

  lemma OneSum(a: bv8, p: bv8, h: bv8, k: bv8)
    requires Sums(a, p, h) && Sums(a, p, k)
    ensures h == k
  {
  }

  lemma Cancels(a: bv8, x: bv8, p: bv8, h: bv8, k: bv8)
    requires Sums(a, p, h) && Sums(x, p, k)
    ensures h == k <==> a == x
  {
    hide Sums;
    Back(a, p, h);
    Back(x, p, k);
    if h == k {
      OneSum(h, p, a, x);
    } else if a == x {
      OneSum(a, p, h, k);
    }
  }

  lemma FirstCounts(a: bv8, b: bv8, c: bv8, d: bv8, e: bv8, f: bv8, x: bv8, h: bv8, k: bv8)
    requires IsHash(a, b, c, d, e, f, h) && IsHash(x, b, c, d, e, f, k)
    ensures h == k <==> a == x
  {
    hide IsHash, Sums;
    FirstApart(a, b, c, d, e, f, h);
    FirstApart(x, b, c, d, e, f, k);
    Cancels(a, x, b ^ c ^ d ^ e ^ f, h, k);
  }

  lemma Turns(a: bv8, b: bv8, c: bv8, d: bv8, e: bv8, f: bv8, h: bv8)
    requires IsHash(a, b, c, d, e, f, h)
    ensures IsHash(b, c, d, e, f, a, h)
  {
  }

  /** The address turned by one byte. */
  function Turned(a: Addr): (b: Addr)
    requires |a| == 6
    ensures |b| == 6
  {
    [a[1], a[2], a[3], a[4], a[5], a[0]]
  }

  lemma TurnedHash(a: Addr)
    requires |a| == 6
    ensures HashByte(Turned(a)) == HashByte(a)
  {
    hide IsHash, HashByte;
    HashByteIs(a);
    Turns(a[0], a[1], a[2], a[3], a[4], a[5], HashByte(a));
    HashByteIs(Turned(a));
    OneHash(a[1], a[2], a[3], a[4], a[5], a[0], HashByte(a), HashByte(Turned(a)));
  }

  lemma OneHash(a: bv8, b: bv8, c: bv8, d: bv8, e: bv8, f: bv8, h: bv8, k: bv8)
    requires IsHash(a, b, c, d, e, f, h) && IsHash(a, b, c, d, e, f, k)
    ensures h == k
  {
  }

  /** Each byte of an address counts in its hash, and turning the address does not change it. */
  lemma {:induction false} HashIs(a: Addr, i: nat, x: bv8)
    requires |a| == 6 && i < 6
    ensures HashIndex(a[i := x]) == HashIndex(a) <==> x == a[i]
    ensures HashIndex(Turned(a)) == HashIndex(a)
    decreases i
  {
    hide IsHash, HashByte;
    var b := a[i := x];
    TurnedHash(a);
    SameIndex(HashByte(b), HashByte(a));
    if i == 0 {
      HashByteIs(a);
      HashByteIs(b);
      FirstCounts(a[0], a[1], a[2], a[3], a[4], a[5], x, HashByte(a), HashByte(b));
    } else {
      TurnedHash(b);
      HashIs(Turned(a), i - 1, x);
      assert Turned(b) == Turned(a)[i - 1 := x];
    }
  }

  lemma SameIndex(x: bv8, y: bv8)
    ensures x as int == y as int <==> x == y
  {
  }

  lemma {:induction false} ScanIs(v: seq<Slot>, a: Addr, i: nat, r: nat)
    requires Unique(v) && i <= r < |v| && Used(v[r]) && v[r].addr == a
    ensures Scan(v, a, i) == r
    decreases |v| - i
  {
    if i < r {
      ScanIs(v, a, i + 1, r);
    }
  }

  predicate IsFirstVacancy(v: seq<Slot>, first: nat, r: int) {
    first <= r < |v| && !Used(v[r]) && forall i :: first <= i < r ==> Used(v[i])
  }

  /** An insertion of an address that is not there takes the first vacancy from its start on and is found
      there; all other addresses are found where they were; without a vacancy nothing changes. */
  lemma AddMeans(v: seq<Slot>, a: Addr, peer: bool, first: nat, b: Addr)
    requires |v| == 32 && Unique(v) && first <= 32 && Scan(v, a, 0) == -1
    ensures var w := Apply(v, Add(a, peer, first));
            && Unique(w)
            && if exists i :: first <= i < 32 && !Used(v[i]) then
                 && IsFirstVacancy(v, first, Scan(w, a, 0)) && w[Scan(w, a, 0)].Dls? == peer
                 && (b != a ==> Scan(w, b, 0) == Scan(v, b, 0))
               else w == v
  {
    hide Scan, Vacancy;
    var w := Apply(v, Add(a, peer, first));
    ScanFinds(v, a, 0);
    ScanFinds(v, b, 0);
    VacancyIs(v, first);
    var r := Vacancy(v, first);
    if r != -1 {
      ScanIs(w, a, 0, r);
      if b != a {
        SameScan(v, w, b);
      }
    }
  }

  /** A removal of a used entry with its address leaves that address unfound, and all others where they
      were; a removal that names another address changes nothing. */
  lemma RemoveMeans(v: seq<Slot>, i: nat, a: Addr, b: Addr)
    requires |v| == 32 && Unique(v)
    ensures var w := Apply(v, Remove(i, a));
            && Unique(w)
            && if i < 32 && Scan(v, a, 0) == i then Scan(w, a, 0) == -1 && (b != a ==> Scan(w, b, 0) == Scan(v, b, 0))
               else w == v
  {
    hide Scan;
    var w := Apply(v, Remove(i, a));
    ScanFinds(v, a, 0);
    if i < 32 && Used(v[i]) && v[i].addr == a {
      ScanIs(v, a, 0, i);
      OnlyOne(w, a, 0);
      if b != a {
        SameScan(v, w, b);
      }
    }
  }

  lemma SameScan(v: seq<Slot>, w: seq<Slot>, b: Addr)
    requires |v| == |w| && Unique(v) && Unique(w)
    requires forall i :: 0 <= i < |v| ==> (Used(v[i]) && v[i].addr == b <==> Used(w[i]) && w[i].addr == b)
    ensures Scan(w, b, 0) == Scan(v, b, 0)
  {
    hide Scan;
    ScanFinds(v, b, 0);
    if Scan(v, b, 0) == -1 {
      OnlyOne(w, b, 0);
    } else {
      ScanIs(w, b, 0, Scan(v, b, 0));
    }
  }

  // ------------------------------------------------------------- a shadowed look-up

  const PEER: Addr := [1, 1, 0, 0, 0, 0]

  const OTHER: Addr := [0, 0, 0, 0, 0, 0]

  lemma SameHash()
    ensures HashIndex(PEER) == HashIndex(OTHER) && PEER != OTHER
  {
    assert HashByte(PEER) == 0 && HashByte(OTHER) == 0;
    assert PEER[0] != OTHER[0];
  }

  lemma {:induction false} OnlyOne(v: seq<Slot>, a: Addr, i: nat)
    requires i <= |v| && forall j :: i <= j < |v| && Used(v[j]) ==> v[j].addr != a
    ensures Scan(v, a, i) == -1
    decreases |v| - i
  {
    if i < |v| {
      OnlyOne(v, a, i + 1);
    }
  }

  /** A station's table after one direct-link peer was added: looking up another address with the same
      hash returns the peer, where a scan finds nothing. */
  method PeerShadows() returns (added: int, found: int)
    ensures added == found == 2
    ensures FreshAddresses([Add(PEER, true, 2)]) && Scan(Run([Add(PEER, true, 2)]), OTHER, 0) == -1
  {
    hide HashIndex, CountUsed, Chained, FreshAddresses, Scan, Walk, Run;
    PeerRun();
    SameHash();
    var t := new Table();
    NoneUsed(t.slots[..]);
    added := t.Insert(PEER, true, 2);
    assert t.chains[HashIndex(OTHER)] == [2];
    StopsAtPeer(t.slots[..], OTHER);
    found := t.Lookup(OTHER);
  }

  lemma PeerRun()
    ensures FreshAddresses([Add(PEER, true, 2)]) && Scan(Run([Add(PEER, true, 2)]), OTHER, 0) == -1
    ensures forall v: seq<Slot> :: |v| == 32 && (forall i :: 0 <= i < 32 ==> v[i] == Free) ==> Vacancy(v, 2) == 2
  {
    hide Scan;
    SameHash();
    var empty := Run([]);
    var ops := [Add(PEER, true, 2)];
    OnlyOne(empty, PEER, 0);
    assert ops[..0] == [];
    assert Run(ops) == Apply(empty, ops[0]) == empty[2 := Dls(PEER)];
    OnlyOne(Run(ops), OTHER, 0);
  }

  lemma StopsAtPeer(v: seq<Slot>, a: Addr)
    requires |v| == 32 && v[2].Dls?
    ensures Walk(v, [2], a) == 2
  {
  }
}
