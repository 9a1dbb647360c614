/** The poll table of a server, kept in step with its events and with the lookup of connections by socket. */
module WsPoll {
  import opened Bits
  import opened WsPollModel

  datatype PollFd = PollFd(fd: nat, events: nat, revents: nat)

  const LWS_POLLIN := 1

  /** What becomes of a removal: success (0 in the source), refusal (1), or a crash. */
  datatype Removal = Removed | Refused | NullPointer

  /** One chain of the table of connections: an array that is shifted when an entry leaves it. */
  class Bucket {
    const wsi: array<Wsi?>
    var length: nat
    ghost var contents: seq<Wsi>

    ghost predicate Valid()
      reads this, wsi
    {
      && length == |contents| < wsi.Length
      && forall k :: 0 <= k < length ==> wsi[k] == contents[k]
    }

    constructor (size: nat)
      requires size > 0
      ensures Valid() && contents == [] && wsi.Length == size && fresh(wsi)
    {
      wsi := new Wsi?[size](_ => null);
      length := 0;
      contents := [];
    }

    method FromFd(fd: nat) returns (w: Wsi?)
      requires Valid()
      ensures var k := Find(contents, fd); w == if k < |contents| then contents[k] else null
    {
      var n := 0;
      while n < length
        invariant n <= length && forall i :: 0 <= i < n ==> contents[i].sock != fd
      {
        if wsi[n].sock == fd {
          return wsi[n];
        }
        n := n + 1;
      }
      return null;
    }

    /** Appends an entry; one place of the array always stays free. */
    method Insert(w: Wsi) returns (ok: bool)
      requires Valid()
      modifies this, wsi
      ensures Valid() && ok == (old(length) < wsi.Length - 1)
      ensures contents == old(contents) + if ok then [w] else []
    {
      if length == wsi.Length - 1 {
        return false;
      }
      wsi[length] := w;
      length := length + 1;
      contents := contents + [w];
      return true;
    }

    /** Takes the entry of a socket out, moving those behind it down. */
    method Delete(fd: nat) returns (ok: bool)
      requires Valid()
      modifies this, wsi
      ensures Valid() && ok == (Find(old(contents), fd) < |old(contents)|)
      ensures contents == if ok then Without(old(contents), Find(old(contents), fd)) else old(contents)
    {
      var n := 0;
      while n < length
        invariant n <= length && Valid() && contents == old(contents) && length == old(length)
        invariant forall i :: 0 <= i < n ==> contents[i].sock != fd
      {
        if wsi[n].sock == fd {
          ShiftDown(n);
          return true;
        }
        n := n + 1;
      }
      return false;
    }

    method ShiftDown(from: nat)
      requires Valid() && from < length
      modifies this, wsi
      ensures Valid() && contents == Without(old(contents), from)
    {
      ghost var before := contents;
      var n := from;
      while n < length
        invariant from <= n <= length == |before| < wsi.Length
        invariant forall k :: 0 <= k < from ==> wsi[k] == before[k]
        invariant forall k :: from <= k < n && k + 1 < length ==> wsi[k] == before[k + 1]
        invariant forall k :: n <= k < length ==> wsi[k] == before[k]
        modifies wsi
      {
        wsi[n] := wsi[n + 1];
        n := n + 1;
      }
      length := length - 1;
      contents := Without(before, from);
    }
  }

  /** The handles in use, for waking up and for the entries, are different, and are those that are open. */
  ghost predicate Owned(handles: seq<nat>, open: set<nat>) {
    && (forall i, j :: 0 <= i < j < |handles| ==> handles[i] != handles[j])
    && open == set h | h in handles
  }

  lemma {:induction false} OwnedMore(handles: seq<nat>, open: set<nat>, h: nat)
    requires Owned(handles, open) && h !in open
    ensures Owned(handles + [h], open + {h})
  {
  }

  lemma {:induction false} OwnedLess(handles: seq<nat>, open: set<nat>, k: nat)
    requires Owned(handles, open) && k < |handles|
    ensures Owned(SwapOut(handles, k), open - {handles[k]})
  {
    var rest := SwapOut(handles, k);
    forall h | h in open && h != handles[k]
      ensures h in rest
    {
      var i: nat :| i < |handles| && handles[i] == h;
      assert rest[if i == |handles| - 1 then k else i] == h;
    }
    forall h | h in rest
      ensures h in open && h != handles[k]
    {
      var i: nat :| i < |rest| && rest[i] == h;
      assert h == handles[if i == k then |handles| - 1 else i];
    }
  }

  method MakeBuckets(size: nat) returns (table: seq<Bucket>)
    requires size > 0
    ensures |table| == FD_HASHTABLE_MODULUS
    ensures forall h :: 0 <= h < |table| ==>
      fresh(table[h]) && fresh(table[h].wsi) && table[h].Valid() && table[h].wsi.Length == size && table[h].contents == []
    ensures forall h, i :: 0 <= h < i < |table| ==> table[h] != table[i] && table[h].wsi != table[i].wsi
  {
    table := [];
    while |table| < FD_HASHTABLE_MODULUS
      invariant |table| <= FD_HASHTABLE_MODULUS
      invariant forall h :: 0 <= h < |table| ==>
        fresh(table[h]) && fresh(table[h].wsi) && table[h].Valid() && table[h].wsi.Length == size && table[h].contents == []
      invariant forall h, i :: 0 <= h < i < |table| ==> table[h] != table[i] && table[h].wsi != table[i].wsi
    {
      var b := new Bucket(size);
      table := table + [b];
    }
  }

  class PollTable {
    const maxFds: nat
    const table: seq<Bucket>
    const fds: array<PollFd>
    const events: array<nat>
    var fdsCount: nat
    /** The event handles that are open, and the sockets they were attached to. */
    var open: set<nat>
    var selected: map<nat, nat>
    /** The connections in the table, in order, and the chains of the lookup. */
    ghost var live: seq<Wsi>
    ghost var chains: seq<seq<Wsi>>

    /** An empty table; wake is the event that interrupts waiting. */
    constructor (maxFds: nat, wake: nat)
      requires maxFds > 0
      ensures Valid() && this.maxFds == maxFds && live == [] && open == {wake}
      ensures fresh(fds) && fresh(events) && fresh(table) && fresh(Arrays())
    {
      this.maxFds := maxFds;
      var buckets := MakeBuckets(maxFds);
      table := buckets;
      fds := new PollFd[maxFds](_ => PollFd(0, 0, 0));
      events := new nat[maxFds + 1](_ => wake);
      fdsCount, open, selected, live := 0, {wake}, map[], [];
      chains := seq(FD_HASHTABLE_MODULUS, _ => []);
      new;
      assert events[..1] == [wake];
    }

    ghost function Arrays(): set<object>
    {
      set b | b in table :: b.wsi
    }

    /** The chains lie apart in memory, and hold what they should. */
    ghost predicate Lookup()
      reads this`chains, table, Arrays()
    {
      && |table| == |chains| == FD_HASHTABLE_MODULUS
      && (forall h :: 0 <= h < |table| ==> table[h].Valid() && table[h].wsi.Length == maxFds && table[h].contents == chains[h])
      && (forall h, i :: 0 <= h < i < |table| ==> table[h] != table[i] && table[h].wsi != table[i].wsi)
    }

    /** An entry is that of its connection, which knows its place, and has an event of its own. */
    ghost predicate Entry(i: nat)
      requires i < |live| && |live| <= fds.Length < events.Length
      reads this`live, this`selected, fds, events, live[i]
    {
      && fds[i].fd == live[i].sock && live[i].position == i
      && events[i + 1] in selected && selected[events[i + 1]] == live[i].sock
    }

    ghost predicate Kept()
      reads this`live, this`selected, this`open, fds, events, live
    {
      && |live| <= maxFds == fds.Length && events.Length == maxFds + 1
      && (forall i: nat {:trigger Entry(i)} :: i < |live| ==> Entry(i))
      && Owned(events[..|live| + 1], open)
    }

    ghost predicate Entries()
      reads this`fdsCount, this`live, this`selected, this`open, fds, events, live
    {
      fdsCount == |live| && Kept()
    }

    /** Table, events and lookup are in step, except that the lookup may have lost connections. */
    ghost predicate Sound()
      reads this, table, Arrays(), fds, events, live
    {
      Lookup() && Linked(live, chains) && Entries()
    }

    ghost predicate Valid()
      reads this, table, Arrays(), fds, events, live
    {
      Sound() && Consistent(live, chains)
    }

    /** The connection of a socket, by its hash, unless it is lost. */
    method FromFd(fd: nat) returns (w: Wsi?)
      requires Sound()
      ensures w != null ==> w in live && w.sock == fd
      ensures w == null <==> forall i: nat {:trigger Chained(live, chains, i)} ::
                               i < |live| && Chained(live, chains, i) ==> live[i].sock != fd
    {
      LookupFinds(live, chains, fd);
      w := table[Hash(fd)].FromFd(fd);
      if w != null {
        ghost var i: nat :| i < |live| && live[i] == w;
        assert Chained(live, chains, i);
      }
    }

    /** Enters a connection into the chain of its hash, if there is room. */
    method InsertWsi(w: Wsi) returns (ok: bool)
      requires Lookup()
      modifies this`chains, table, Arrays()
      ensures Lookup() && ok == (|old(chains)[Hash(w.sock)]| < maxFds - 1)
      ensures chains == if ok then Appended(old(chains), w) else old(chains)
    {
      var h := Hash(w.sock);
      assert table[h] in table;
      ok := table[h].Insert(w);
      if ok {
        chains := Appended(chains, w);
      }
    }

    method DeleteFromFd(w: Wsi) returns (ok: bool)
      requires Lookup()
      modifies this`chains, table, Arrays()
      ensures Lookup() && chains == Dropped(old(chains), w)
    {
      var h := Hash(w.sock);
      assert table[h] in table;
      ok := table[h].Delete(w.sock);
      chains := Dropped(chains, w);
    }

    /**
     * A new entry for a connection, polled for input; handle is the event the system gives it. If its chain is full, the
     * connection is lost to the lookup.
     */
    method InsertSocket(w: Wsi, handle: nat) returns (r: int)
      requires Sound() && Fresh(live, w) && handle !in open
      modifies this, table, Arrays(), fds, events, w`position
      ensures Sound() && r == if old(fdsCount) >= maxFds then 1 else 0
      ensures r == 1 ==>
        live == old(live) && chains == old(chains) && fds[..] == old(fds[..]) && events[..] == old(events[..])
      ensures r == 0 ==> live == old(live) + [w] && open == old(open) + {handle}
      ensures r == 0 ==> (Valid() <==> old(Valid()) && |old(chains)[Hash(w.sock)]| < maxFds - 1)
      ensures r == 0 ==> (Chained(live, chains, |live| - 1) <==> |old(chains)[Hash(w.sock)]| < maxFds - 1)
      ensures old(fdsCount) < maxFds - 1 ==> r == 0 && (old(Valid()) ==> Valid())
    {
      if fdsCount >= maxFds {
        return 1;
      }
      ChainFits(live, chains, Hash(w.sock));
      ghost var before, was := live, chains;
      var linked := Remember(w);
      Entered(before, was, w, linked, chains);
      PutEntry(w, handle);
      return 0;
    }

    /** The entries do not depend on the chains. */
    method Remember(w: Wsi) returns (ok: bool)
      requires Lookup() && Entries()
      modifies this`chains, table, Arrays()
      ensures Lookup() && Entries() && ok == (|old(chains)[Hash(w.sock)]| < maxFds - 1)
      ensures chains == if ok then Appended(old(chains), w) else old(chains)
    {
      ok := InsertWsi(w);
    }

    method PutEntry(w: Wsi, handle: nat)
      requires Entries() && fdsCount < maxFds && Fresh(live, w) && handle !in open
      modifies this`fdsCount, this`open, this`selected, this`live, fds, events, w`position
      ensures Entries() && live == old(live) + [w] && open == old(open) + {handle}
    {
      ghost var n := fdsCount;
      OwnedMore(events[..n + 1], open, handle);
      forall i: nat | i < n
        ensures Entry(i) && live[i] != w && events[i + 1] != handle
      {
        assert Entry(i);
        assert events[..n + 1][i + 1] in open;
      }
      w.position := fdsCount;
      fds[fdsCount] := PollFd(w.sock, LWS_POLLIN, 0);
      fdsCount := fdsCount + 1;
      assert events[..n + 1] == old(events[..n + 1]);
      events[fdsCount] := handle;
      assert events[..n + 2] == old(events[..n + 1]) + [handle];
      open := open + {handle};
      selected := selected[handle := w.sock];
      live := live + [w];
      forall i: nat | i < |live|
        ensures Entry(i)
      {
        if i < n {
          assert old(Entry(i));
        }
      }
    }

    /**
     * Takes a connection out of the table: the last entry moves to its place, with its event. A socket number above the
     * size of the table is refused, but only after the count was lowered, so that the last entry is no longer polled. If
     * the last connection is lost, its lookup gives a null pointer, which is followed.
     */
    method RemoveSocket(w: Wsi) returns (r: Removal)
      requires Sound() && 0 <= w.position < |live| && live[w.position] == w
      modifies this, table, Arrays(), fds, events, live
      ensures r == if w.sock > maxFds then Refused
                   else if !old(Chained(live, chains, |live| - 1)) then NullPointer
                   else Removed
      ensures r == Removed ==>
        && Sound() && w.position == -1 && live == SwapOut(old(live), old(w.position))
        && open == old(open) - {old(events[w.position + 1])}
        && (Valid() <==> OthersChained(old(live), old(chains), old(w.position)))
      ensures r == Refused ==>
        && !Entries() && live == old(live) && fdsCount == old(fdsCount) - 1
        && Lookup() && chains == old(chains) && fds[..] == old(fds[..])
    {
      fdsCount := fdsCount - 1;
      if w.sock > maxFds {
        return Refused;
      }
      var moved := LastOne();
      if moved == null {
        return NullPointer;
      }
      TakeOut(w, moved);
      return Removed;
    }

    method TakeOut(w: Wsi, moved: Wsi)
      requires Lookup() && Linked(live, chains) && Kept() && fdsCount == |live| - 1
      requires 0 <= w.position < |live| && live[w.position] == w && moved == live[fdsCount]
      modifies this, table, Arrays(), fds, events, live
      ensures Sound() && w.position == -1 && live == SwapOut(old(live), old(w.position))
      ensures open == old(open) - {old(events[w.position + 1])}
      ensures Valid() <==> OthersChained(old(live), old(chains), old(w.position))
    {
      ghost var rest, without := SwapOut(live, w.position), Dropped(chains, w);
      ghost var found := OthersChained(live, chains, w.position);
      assert Linked(rest, without) && (Consistent(rest, without) <==> found) && Apart(live) by {
        RemovedConsistent(live, chains, w.position);
        DistinctLive(live, chains);
      }
      MoveLast(w, moved);
      assert live == rest && without == Dropped(chains, w);
      Forget(w);
    }

    /** The entries do not depend on the chains. */
    method Forget(w: Wsi)
      requires Lookup() && Entries()
      modifies this`chains, table, Arrays()
      ensures Lookup() && Entries() && chains == Dropped(old(chains), w)
    {
      var deleted := DeleteFromFd(w);
    }

    method MoveLast(w: Wsi, moved: Wsi)
      requires Lookup() && Kept() && fdsCount == |live| - 1 && Apart(live)
      requires 0 <= w.position < |live| && live[w.position] == w && moved == live[fdsCount]
      modifies this`open, this`live, fds, events, live
      ensures Lookup() && Entries() && w.position == -1 && live == SwapOut(old(live), old(w.position))
      ensures open == old(open) - {old(events[w.position + 1])}
    {
      DropEntry(w, moved);
    }

    /** The connection of the last entry, found by its socket; null if it is lost. */
    method LastOne() returns (w: Wsi?)
      requires Lookup() && Linked(live, chains) && Kept() && fdsCount == |live| - 1
      ensures w == if Chained(live, chains, |live| - 1) then live[fdsCount] else null
    {
      assert Entry(|live| - 1);
      FindsOwn(live, chains, |live| - 1);
      var fd := fds[fdsCount].fd;
      w := table[Hash(fd)].FromFd(fd);
    }

    /** The last entry takes the place of one that is removed, and so does its event. */
    method DropEntry(w: Wsi, moved: Wsi)
      requires Kept() && fdsCount == |live| - 1 && w in live && moved == live[fdsCount]
      requires 0 <= w.position < |live| && live[w.position] == w
      requires Apart(live)
      modifies this`open, this`live, fds, events, w`position, moved`position
      ensures Entries() && w.position == -1 && live == SwapOut(old(live), old(w.position))
      ensures open == old(open) - {old(events[w.position + 1])}
    {
      var m := w.position;
      ghost var n, handles := |live|, events[..|live| + 1];
      OwnedLess(handles, open, m + 1);
      forall i: nat | i < n
        ensures Entry(i)
      {
      }
      fds[m] := fds[fdsCount];
      open := open - {events[m + 1]};
      events[m + 1] := events[fdsCount + 1];
      moved.position := m;
      w.position := -1;
      assert events[..n] == SwapOut(handles, m + 1);
      live := SwapOut(live, m);
      forall i: nat | i < |live|
        ensures Entry(i)
      {
        assert old(Entry(i)) && old(Entry(n - 1));
      }
    }
  }

  /** A connection whose socket number is above the size of the table can be entered, but not taken out. */
  method RefusedRemoval(wake: nat, handle: nat) returns (t: PollTable, w: Wsi)
    requires wake != handle
    ensures w.sock > t.maxFds && t.live == [w] && t.Lookup() && Consistent(t.live, t.chains)
    ensures t.fdsCount == 0 && !t.Valid()
  {
    t := new PollTable(4, wake);
    w := new Wsi(5);
    var entered := t.InsertSocket(w, handle);
    assert t.Entry(0);
    var removed := t.RemoveSocket(w);
  }

  lemma {:induction false} SameHash()
    ensures Hash(0) == Hash(32) == 0
  {
    XorZero(0);
    XorZero(32);
    assert 32 / 0x100 == 0 && 32 / 0x1_0000 == 0;
  }

  /** A table for two connections with one in it. */
  method TableOfOne(wake: nat, sock: nat, handle: nat) returns (t: PollTable, v: Wsi)
    requires wake != handle
    ensures t.Valid() && t.maxFds == 2 && t.live == [v] && v.sock == sock && t.open == {wake, handle}
    ensures fresh(t) && fresh(t.table) && fresh(t.Arrays()) && fresh(t.fds) && fresh(t.events) && fresh(v)
  {
    t := new PollTable(2, wake);
    v := new Wsi(sock);
    var entered := t.InsertSocket(v, handle);
  }

  /** Another socket of the same hash: the chain is full, and the connection is lost. */
  method FullChain(wake: nat, first: nat, second: nat) returns (t: PollTable, v: Wsi, w: Wsi)
    requires wake != first && wake != second && first != second
    ensures t.Sound() && t.live == [v, w] && v.sock <= t.maxFds && !Chained(t.live, t.chains, 1)
    ensures fresh(t) && fresh(t.table) && fresh(t.Arrays()) && fresh(t.fds) && fresh(t.events) && fresh(v) && fresh(w)
  {
    SameHash();
    t, v := TableOfOne(wake, 0, first);
    w := new Wsi(32);
    assert Chained(t.live, t.chains, 0);
    var entered := t.InsertSocket(w, second);
  }

  /** Then the first connection cannot be taken out, because the lookup of the second gives a null pointer. */
  method LostCrashes(wake: nat, first: nat, second: nat) returns (removed: Removal)
    requires wake != first && wake != second && first != second
    ensures removed == NullPointer
  {
    var t, v, w := FullChain(wake, first, second);
    assert t.Entry(0);
    removed := t.RemoveSocket(v);
  }
}
