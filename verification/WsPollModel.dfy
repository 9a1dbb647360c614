/** The poll table and the table of connections by socket, as sequences. */
module WsPollModel {
  import opened Bits

  const FD_HASHTABLE_MODULUS := 32

  /** A connection: its socket, and its place in the poll table or -1. */
  class Wsi {
    const sock: nat
    var position: int

    constructor (sock: nat)
      ensures this.sock == sock && position == -1
    {
      this.sock := sock;
      position := -1;
    }
  }

  function Hash(fd: nat): (h: nat)
    ensures h < FD_HASHTABLE_MODULUS
  {
    Xor(Xor(fd, fd / 0x100), fd / 0x1_0000) % FD_HASHTABLE_MODULUS
  }

  function Find(chain: seq<Wsi>, fd: nat): (k: nat)
    ensures k <= |chain| && (k < |chain| ==> chain[k].sock == fd)
    ensures forall i :: 0 <= i < k ==> chain[i].sock != fd
  {
    if chain == [] || chain[0].sock == fd then 0 else 1 + Find(chain[1..], fd)
  }

  function Without<T>(s: seq<T>, k: nat): seq<T>
    requires k < |s|
  {
    s[..k] + s[k + 1..]
  }

  /** The last element takes the place of one that is removed. */
  function SwapOut<T>(s: seq<T>, m: nat): (r: seq<T>)
    requires m < |s|
    ensures |r| == |s| - 1
  {
    s[m := s[|s| - 1]][..|s| - 1]
  }

  predicate InChain(chains: seq<seq<Wsi>>, h: nat, k: nat) {
    h < |chains| && k < |chains[h]|
  }

  /** A chain holds a live connection of its hash. */
  predicate Placed(live: seq<Wsi>, chains: seq<seq<Wsi>>, h: nat, k: nat)
    requires InChain(chains, h, k)
  {
    Hash(chains[h][k].sock) == h && chains[h][k] in live
  }

  /** No connection is twice in a chain. */
  predicate Once(chains: seq<seq<Wsi>>, h: nat, k: nat, l: nat)
    requires InChain(chains, h, k) && InChain(chains, h, l)
  {
    k != l ==> chains[h][k] != chains[h][l]
  }

  predicate Chained(live: seq<Wsi>, chains: seq<seq<Wsi>>, i: nat)
    requires |chains| == FD_HASHTABLE_MODULUS && i < |live|
  {
    live[i] in chains[Hash(live[i].sock)]
  }

  predicate Different(live: seq<Wsi>, i: nat, j: nat)
    requires i < |live| && j < |live|
  {
    i != j ==> live[i].sock != live[j].sock
  }

  /** Live connections have different sockets, and a chain holds live connections of its hash, each once. */
  ghost predicate Linked(live: seq<Wsi>, chains: seq<seq<Wsi>>) {
    && |chains| == FD_HASHTABLE_MODULUS
    && (forall h: nat, k: nat :: InChain(chains, h, k) ==> Placed(live, chains, h, k))
    && (forall h: nat, k: nat, l: nat :: InChain(chains, h, k) && InChain(chains, h, l) ==> Once(chains, h, k, l))
    && (forall i: nat, j: nat {:trigger Different(live, i, j)} :: i < |live| && j < |live| ==> Different(live, i, j))
  }

  /** All live connections but perhaps one are in the chains of their hashes. */
  ghost predicate OthersChained(live: seq<Wsi>, chains: seq<seq<Wsi>>, m: nat)
    requires |chains| == FD_HASHTABLE_MODULUS
  {
    forall i: nat {:trigger Chained(live, chains, i)} :: i < |live| && i != m ==> Chained(live, chains, i)
  }

  /** Every live connection is in the chain of its hash, and no connection is lost. */
  ghost predicate Consistent(live: seq<Wsi>, chains: seq<seq<Wsi>>) {
    Linked(live, chains) && OthersChained(live, chains, |live|)
  }

  /** Lookup by hash finds a live connection of the socket, unless it is lost. */
  lemma {:induction false} LookupFinds(live: seq<Wsi>, chains: seq<seq<Wsi>>, fd: nat)
    requires Linked(live, chains)
    ensures var chain, k := chains[Hash(fd)], Find(chains[Hash(fd)], fd);
            && (k < |chain| ==> chain[k] in live && chain[k].sock == fd)
            && (k == |chain| ==> forall i: nat {:trigger Chained(live, chains, i)} ::
                                   i < |live| && Chained(live, chains, i) ==> live[i].sock != fd)
  {
    var chain, k := chains[Hash(fd)], Find(chains[Hash(fd)], fd);
    if k < |chain| {
      assert InChain(chains, Hash(fd), k);
      assert Placed(live, chains, Hash(fd), k);
    }
  }

  /** A connection is found at its own socket exactly if it is in its chain. */
  lemma {:induction false} FindsOwn(live: seq<Wsi>, chains: seq<seq<Wsi>>, i: nat)
    requires Linked(live, chains) && i < |live|
    ensures var chain, k := chains[Hash(live[i].sock)], Find(chains[Hash(live[i].sock)], live[i].sock);
            (k < |chain| <==> Chained(live, chains, i)) && (k < |chain| ==> chain[k] == live[i])
  {
    LookupFinds(live, chains, live[i].sock);
    var chain, k := chains[Hash(live[i].sock)], Find(chains[Hash(live[i].sock)], live[i].sock);
    if k < |chain| {
      var j: nat :| j < |live| && live[j] == chain[k];
      assert Different(live, i, j);
    }
  }

  predicate Apart(live: seq<Wsi>) { forall i, j :: 0 <= i < j < |live| ==> live[i] != live[j] }

  lemma {:induction false} DistinctLive(live: seq<Wsi>, chains: seq<seq<Wsi>>)
    requires Linked(live, chains)
    ensures Apart(live)
  {
    forall i, j | 0 <= i < j < |live|
      ensures live[i] != live[j]
    {
      assert Different(live, i, j);
    }
  }

  // ----- Inserting

  function Appended(chains: seq<seq<Wsi>>, w: Wsi): seq<seq<Wsi>>
    requires |chains| == FD_HASHTABLE_MODULUS
  {
    chains[Hash(w.sock) := chains[Hash(w.sock)] + [w]]
  }

  predicate Fresh(live: seq<Wsi>, w: Wsi) { forall i :: 0 <= i < |live| ==> live[i].sock != w.sock }

  /** An entry after inserting is one from before, or the new one. */
  lemma {:induction false} EntryOfInserted(live: seq<Wsi>, chains: seq<seq<Wsi>>, w: Wsi, h: nat, k: nat)
    requires Linked(live, chains) && Fresh(live, w) && InChain(Appended(chains, w), h, k)
    ensures k < |chains[h]| ==>
      && InChain(chains, h, k) && Appended(chains, w)[h][k] == chains[h][k] && chains[h][k] != w
      && Placed(live, chains, h, k)
    ensures k >= |chains[h]| ==> h == Hash(w.sock) && k == |chains[h]| && Appended(chains, w)[h][k] == w
  {
    if k < |chains[h]| {
      assert InChain(chains, h, k);
      assert Placed(live, chains, h, k);
    }
  }

  lemma {:induction false} InsertedOnce(live: seq<Wsi>, chains: seq<seq<Wsi>>, w: Wsi, h: nat, k: nat, l: nat)
    requires Linked(live, chains) && Fresh(live, w)
    requires InChain(Appended(chains, w), h, k) && InChain(Appended(chains, w), h, l)
    ensures Once(Appended(chains, w), h, k, l)
  {
    EntryOfInserted(live, chains, w, h, k);
    EntryOfInserted(live, chains, w, h, l);
    if k < |chains[h]| && l < |chains[h]| {
      assert Once(chains, h, k, l);
    }
  }

  lemma {:induction false} ChainedStill(live: seq<Wsi>, chains: seq<seq<Wsi>>, w: Wsi, i: nat)
    requires Linked(live, chains) && Fresh(live, w) && i < |live|
    ensures Chained(live + [w], Appended(chains, w), i) <==> Chained(live, chains, i)
  {
  }

  lemma {:induction false} InsertedLive(live: seq<Wsi>, chains: seq<seq<Wsi>>, w: Wsi, i: nat, j: nat)
    requires Linked(live, chains) && Fresh(live, w) && i < |live| + 1 && j < |live| + 1
    ensures Chained(live + [w], Appended(chains, w), i) <==> (i < |live| ==> Chained(live, chains, i))
    ensures Different(live + [w], i, j)
  {
    if i < |live| {
      ChainedStill(live, chains, w, i);
    } else {
      assert Appended(chains, w)[Hash(w.sock)][|chains[Hash(w.sock)]|] == w;
    }
    if i < |live| && j < |live| {
      assert Different(live, i, j);
    }
  }

  /** Entering a connection into table and chain keeps them in step, and loses none. */
  lemma {:induction false} InsertedConsistent(live: seq<Wsi>, chains: seq<seq<Wsi>>, w: Wsi)
    requires Linked(live, chains) && Fresh(live, w)
    ensures Linked(live + [w], Appended(chains, w))
    ensures Consistent(live + [w], Appended(chains, w)) <==> Consistent(live, chains)
  {
    var live', chains' := live + [w], Appended(chains, w);
    forall h: nat, k: nat | InChain(chains', h, k)
      ensures Placed(live', chains', h, k)
    {
      EntryOfInserted(live, chains, w, h, k);
    }
    forall h: nat, k: nat, l: nat | InChain(chains', h, k) && InChain(chains', h, l)
      ensures Once(chains', h, k, l)
    {
      InsertedOnce(live, chains, w, h, k, l);
    }
    forall i: nat, j: nat | i < |live'| && j < |live'|
      ensures Different(live', i, j)
    {
      InsertedLive(live, chains, w, i, j);
    }
    forall i: nat | i < |live'|
      ensures Chained(live', chains', i) <==> (i < |live| ==> Chained(live, chains, i))
    {
      InsertedLive(live, chains, w, i, i);
    }
  }

  /** A connection whose chain has no room is lost to the lookup. */
  lemma {:induction false} LostConnection(live: seq<Wsi>, chains: seq<seq<Wsi>>, w: Wsi)
    requires Linked(live, chains) && Fresh(live, w)
    ensures Linked(live + [w], chains) && !Chained(live + [w], chains, |live|)
    ensures forall i: nat {:trigger Chained(live, chains, i)} :: i < |live| ==>
      (Chained(live + [w], chains, i) <==> Chained(live, chains, i))
  {
    var live' := live + [w];
    forall h: nat, k: nat | InChain(chains, h, k)
      ensures Placed(live', chains, h, k) && chains[h][k] != w
    {
      assert Placed(live, chains, h, k);
    }
    forall k: nat | k < |chains[Hash(w.sock)]|
      ensures chains[Hash(w.sock)][k] != w
    {
      assert InChain(chains, Hash(w.sock), k);
    }
    forall i: nat, j: nat | i < |live'| && j < |live'|
      ensures Different(live', i, j)
    {
      InsertedLive(live, chains, w, i, j);
    }
  }

  /** Entering a connection with or without a place in its chain. */
  lemma {:induction false} Entered(live: seq<Wsi>, chains: seq<seq<Wsi>>, w: Wsi, ok: bool, after: seq<seq<Wsi>>)
    requires Linked(live, chains) && Fresh(live, w) && after == if ok then Appended(chains, w) else chains
    ensures Linked(live + [w], after) && (Chained(live + [w], after, |live|) <==> ok)
    ensures Consistent(live + [w], after) <==> Consistent(live, chains) && ok
  {
    if ok {
      InsertedConsistent(live, chains, w);
      InsertedLive(live, chains, w, |live|, |live|);
    } else {
      LostConnection(live, chains, w);
    }
  }

  // ----- Removing

  function Dropped(chains: seq<seq<Wsi>>, w: Wsi): seq<seq<Wsi>>
    requires |chains| == FD_HASHTABLE_MODULUS
  {
    var h := Hash(w.sock);
    var k := Find(chains[h], w.sock);
    if k < |chains[h]| then chains[h := Without(chains[h], k)] else chains
  }

  /** An entry after removing is one from before, and not the one removed. */
  lemma {:induction false} EntryOfRemoved(live: seq<Wsi>, chains: seq<seq<Wsi>>, m: nat, h: nat, k: nat) returns (k0: nat)
    requires Linked(live, chains) && m < |live| && InChain(Dropped(chains, live[m]), h, k)
    ensures InChain(chains, h, k0) && Dropped(chains, live[m])[h][k] == chains[h][k0] && chains[h][k0] != live[m]
    ensures k0 == if h == Hash(live[m].sock) && k >= Find(chains[h], live[m].sock) then k + 1 else k
    ensures Placed(live, chains, h, k0)
  {
    var w := live[m];
    FindsOwn(live, chains, m);
    assert Chained(live, chains, m) <==> w in chains[Hash(w.sock)];
    var found := Find(chains[Hash(w.sock)], w.sock);
    k0 := if h == Hash(w.sock) && k >= found then k + 1 else k;
    assert InChain(chains, h, k0);
    assert Placed(live, chains, h, k0);
    if h == Hash(w.sock) && found < |chains[h]| {
      assert InChain(chains, h, found);
      assert Once(chains, h, k0, found);
    }
  }

  lemma {:induction false} StaysLive(live: seq<Wsi>, m: nat, i: nat) returns (i0: nat)
    requires m < |live| && i < |live| - 1
    ensures i0 < |live| && i0 != m && SwapOut(live, m)[i] == live[i0] && i0 == if i == m then |live| - 1 else i
  {
    i0 := if i == m then |live| - 1 else i;
  }

  lemma {:induction false} InSwapOut(live: seq<Wsi>, m: nat, x: Wsi)
    requires m < |live| && x in live && x != live[m]
    ensures x in SwapOut(live, m)
  {
    var i: nat :| i < |live| && live[i] == x;
    assert SwapOut(live, m)[if i == |live| - 1 then m else i] == x;
  }

  lemma {:induction false} InWithout(chain: seq<Wsi>, k: nat, x: Wsi)
    requires k < |chain| && x in chain && x != chain[k]
    ensures x in Without(chain, k)
  {
    var i: nat :| i < |chain| && chain[i] == x;
    assert Without(chain, k)[if i < k then i else i - 1] == x;
  }

  lemma {:induction false} RemovedPlaced(live: seq<Wsi>, chains: seq<seq<Wsi>>, m: nat, h: nat, k: nat)
    requires Linked(live, chains) && m < |live| && InChain(Dropped(chains, live[m]), h, k)
    ensures Placed(SwapOut(live, m), Dropped(chains, live[m]), h, k)
  {
    var k0 := EntryOfRemoved(live, chains, m, h, k);
    InSwapOut(live, m, chains[h][k0]);
  }

  lemma {:induction false} RemovedOnce(live: seq<Wsi>, chains: seq<seq<Wsi>>, m: nat, h: nat, k: nat, l: nat)
    requires Linked(live, chains) && m < |live|
    requires InChain(Dropped(chains, live[m]), h, k) && InChain(Dropped(chains, live[m]), h, l)
    ensures Once(Dropped(chains, live[m]), h, k, l)
  {
    var k0 := EntryOfRemoved(live, chains, m, h, k);
    var l0 := EntryOfRemoved(live, chains, m, h, l);
    assert Once(chains, h, k0, l0);
  }

  lemma {:induction false} RemovedLive(live: seq<Wsi>, chains: seq<seq<Wsi>>, m: nat, i: nat, i0: nat)
    requires Linked(live, chains) && m < |live| && i < |live| - 1 && i0 == if i == m then |live| - 1 else i
    ensures Chained(SwapOut(live, m), Dropped(chains, live[m]), i) <==> Chained(live, chains, i0)
  {
    assert SwapOut(live, m)[i] == live[i0];
    assert Different(live, i0, m);
    FindsOwn(live, chains, m);
    var h := Hash(live[m].sock);
    var found := Find(chains[h], live[m].sock);
    if Hash(live[i0].sock) == h && found < |chains[h]| {
      InEither(chains[h], found, live[i0]);
    }
  }

  lemma {:induction false} InEither(chain: seq<Wsi>, k: nat, x: Wsi)
    requires k < |chain| && x != chain[k]
    ensures x in Without(chain, k) <==> x in chain
  {
    if x in chain {
      InWithout(chain, k, x);
    }
  }

  /** Taking a connection out keeps table and chains in step; none is lost afterwards exactly if no other was before. */
  lemma {:induction false} RemovedConsistent(live: seq<Wsi>, chains: seq<seq<Wsi>>, m: nat)
    requires Linked(live, chains) && m < |live|
    ensures Linked(SwapOut(live, m), Dropped(chains, live[m]))
    ensures Consistent(SwapOut(live, m), Dropped(chains, live[m])) <==> OthersChained(live, chains, m)
  {
    RemovedLinked(live, chains, m);
    var live', chains' := SwapOut(live, m), Dropped(chains, live[m]);
    forall i: nat | i < |live'|
      ensures Chained(live', chains', i) <==> Chained(live, chains, if i == m then |live| - 1 else i)
    {
      RemovedLive(live, chains, m, i, if i == m then |live| - 1 else i);
    }
    if OthersChained(live', chains', |live'|) {
      forall i: nat | i < |live| && i != m
        ensures Chained(live, chains, i)
      {
        assert Chained(live', chains', if i == |live| - 1 then m else i);
      }
    }
  }

  lemma {:induction false} RemovedLinked(live: seq<Wsi>, chains: seq<seq<Wsi>>, m: nat)
    requires Linked(live, chains) && m < |live|
    ensures Linked(SwapOut(live, m), Dropped(chains, live[m]))
  {
    var live', chains' := SwapOut(live, m), Dropped(chains, live[m]);
    forall h: nat, k: nat | InChain(chains', h, k)
      ensures Placed(live', chains', h, k)
    {
      RemovedPlaced(live, chains, m, h, k);
    }
    forall h: nat, k: nat, l: nat | InChain(chains', h, k) && InChain(chains', h, l)
      ensures Once(chains', h, k, l)
    {
      RemovedOnce(live, chains, m, h, k, l);
    }
    forall i: nat, j: nat | i < |live'| && j < |live'|
      ensures Different(live', i, j)
    {
      var i0 := StaysLive(live, m, i);
      var j0 := StaysLive(live, m, j);
      assert Different(live, i0, j0);
    }
  }

  // ----- Room in a chain

  ghost function Elements(s: seq<Wsi>): set<Wsi> { set x | x in s }

  lemma {:induction false} DistinctCount(s: seq<Wsi>)
    ensures |Elements(s)| <= |s|
    ensures (forall i, j :: 0 <= i < j < |s| ==> s[i] != s[j]) ==> |Elements(s)| == |s|
    decreases |s|
  {
    if s != [] {
      var n := |s| - 1;
      DistinctCount(s[..n]);
      assert Elements(s) == Elements(s[..n]) + {s[n]};
      if forall i, j :: 0 <= i < j < |s| ==> s[i] != s[j] {
        assert s[n] !in Elements(s[..n]);
      }
    }
  }

  lemma {:induction false} Smaller<T>(a: set<T>, b: set<T>)
    requires a <= b
    ensures |a| <= |b|
    decreases a
  {
    if a != {} {
      var x :| x in a;
      Smaller(a - {x}, b - {x});
    }
  }

  /** No chain is longer than the connections are many. */
  lemma {:induction false} ChainFits(live: seq<Wsi>, chains: seq<seq<Wsi>>, h: nat)
    requires Linked(live, chains) && h < |chains|
    ensures |chains[h]| <= |live|
  {
    var chain := chains[h];
    forall i, j | 0 <= i < j < |chain|
      ensures chain[i] != chain[j]
    {
      assert InChain(chains, h, i) && InChain(chains, h, j);
      assert Once(chains, h, i, j);
    }
    forall x | x in Elements(chain)
      ensures x in Elements(live)
    {
      var k: nat :| k < |chain| && chain[k] == x;
      assert InChain(chains, h, k);
      assert Placed(live, chains, h, k);
    }
    DistinctCount(chain);
    DistinctCount(live);
    Smaller(Elements(chain), Elements(live));
  }
}
