/** Raw sends: the socket may take bytes in part, and what it leaves is buffered or left to the caller. */
module WsRaw {
  import opened Bits

  /** What the socket does with a send: it fails, takes nothing for now, or takes the first n bytes. */
  datatype Outcome = Error | MoreService | Sent(n: nat)

  datatype Mode = Open | FlushingBeforeClose

  /** How much of a new send is accepted: what the socket took, or all when the rest is kept, or -1. */
  function Taken(len: nat, clean: bool, outcome: Outcome): int {
    match outcome
    case Error => -1
    case MoreService => len
    case Sent(k) => if k > 0 && clean then k else len
  }

  /** How much the socket took. */
  function Took(outcome: Outcome): nat { if outcome.Sent? then outcome.n else 0 }

  /** The result of sending pending bytes: how many went, or, when they are gone, that all is done or to close now. */
  function Flushed(left: nat, mode: Mode, outcome: Outcome): int {
    if outcome == Error then -1
    else if Took(outcome) < left then Took(outcome)
    else if mode == FlushingBeforeClose then -1
    else left
  }

  /** The first n bytes of a stretch of a buffer; none for a negative n. */
  function Front(buf: seq<byte>, n: int): seq<byte> {
    if n < 0 then [] else if n <= |buf| then buf[..n] else buf
  }

  lemma {:induction false} TakenAndLeft(was: seq<byte>, data: seq<byte>, k: nat)
    requires k <= |data|
    ensures was + data[..k] + data[k..] == was + data
  {
    assert data == data[..k] + data[k..];
  }

  /** The buffering of a connection. Every byte accepted is on the wire or pending, in order and once. */
  class Sender {
    var mode: Mode
    var unusable: bool
    /** Whether callers deal with partial sends themselves. */
    var cleanBuffer: bool
    var truncated: array?<byte>
    var allocation: nat
    var offset: nat
    var left: nat
    /** The bytes the socket has taken, and those that were accepted from callers. */
    var wire: seq<byte>
    ghost var accepted: seq<byte>

    ghost function Pending(): seq<byte>
      reads this, truncated
    {
      if truncated != null && offset + left <= truncated.Length then truncated[offset..offset + left] else []
    }

    ghost predicate Valid()
      reads this, truncated
    {
      && (truncated != null ==> truncated.Length == allocation && offset + left <= allocation)
      && (truncated == null ==> left == 0)
      && wire + Pending() == accepted
    }

    constructor ()
      ensures Valid() && mode == Open && left == 0 && wire == [] && accepted == [] && truncated == null
    {
      mode, unusable, cleanBuffer := Open, false, false;
      truncated, allocation, offset, left := null, 0, 0, 0;
      wire, accepted := [], [];
    }

    /**
     * Sends bytes, or keeps what is left of them; the result counts the bytes that were accepted, or is -1. While some
     * bytes are pending, only they may be sent.
     */
    method IssueRaw(buf: array<byte>, from: nat, len: nat, outcome: Outcome) returns (n: int)
      requires Valid() && from + len <= buf.Length && Took(outcome) <= len
      requires if left > 0 then buf == truncated && from == offset && len == left else buf != truncated
      modifies this, truncated
      ensures mode == old(mode) && cleanBuffer == old(cleanBuffer)
      ensures Valid() && (truncated != old(truncated) ==> fresh(truncated))
      ensures old(left) > 0 ==>
        accepted == old(accepted) && left == old(left) - Took(outcome) && n == Flushed(old(left), mode, outcome)
      ensures old(left) == 0 && mode == FlushingBeforeClose ==> n == len && accepted == old(accepted)
      ensures old(left) == 0 && mode == Open ==>
        && n == (if len == 0 then 0 else Taken(len, cleanBuffer, outcome)) <= len
        && accepted == old(accepted) + Front(old(buf[from..from + len]), n)
      ensures old(left) > 0 || (mode == Open && len > 0) ==>
        wire == old(wire) + Front(old(buf[from..from + len]), Took(outcome))
    {
      if len == 0 {
        return 0;
      }
      if mode == FlushingBeforeClose && left == 0 {
        return len;
      }
      if outcome == Error {
        unusable := true;
        return -1;
      }
      var sent := Took(outcome);
      if left > 0 {
        n := AfterPending(sent);
      } else {
        n := AfterNew(buf, from, len, sent);
      }
    }

    /** The socket took some of the pending bytes. */
    method AfterPending(sent: nat) returns (n: int)
      requires Valid() && 0 < left && sent <= left
      modifies this`offset, this`left, this`wire
      ensures n == if left > 0 then sent else if mode == FlushingBeforeClose then -1 else old(left)
      ensures Valid() && left == old(left) - sent && wire == old(wire) + Front(old(Pending()), sent)
    {
      ghost var pending := Pending();
      var len := left;
      TakenAndLeft(wire, pending, sent);
      wire := wire + truncated[offset..offset + sent];
      assert pending[..sent] == truncated[offset..offset + sent];
      offset := offset + sent;
      left := left - sent;
      assert pending[sent..] == Pending();
      n := if left > 0 then sent else if mode == FlushingBeforeClose then -1 else len;
    }

    /** The socket took some of the bytes of a new send; the rest is the caller's, or else buffered. */
    method AfterNew(buf: array<byte>, from: nat, len: nat, sent: nat) returns (n: nat)
      requires Valid() && left == 0 && from + len <= buf.Length && sent <= len && buf != truncated
      modifies this, truncated
      ensures mode == old(mode) && cleanBuffer == old(cleanBuffer)
      ensures Valid() && (truncated != old(truncated) ==> fresh(truncated))
      ensures n == (if sent > 0 && cleanBuffer then sent else len) && (n < len ==> left == 0)
      ensures accepted == old(accepted) + Front(old(buf[from..from + len]), n)
      ensures wire == old(wire) + Front(old(buf[from..from + len]), sent)
    {
      ghost var data := buf[from..from + len];
      assert Pending() == [] && wire + [] == wire;
      TakenAndLeft(wire, data, sent);
      assert data[..sent] == buf[from..from + sent] && data[sent..] == buf[from + sent..from + len];
      wire := wire + buf[from..from + sent];
      if sent == len || (sent > 0 && cleanBuffer) {
        accepted := wire;
        assert wire + [] == wire;
        return sent;
      }
      accepted := accepted + data;
      KeepRest(buf, from + sent, len - sent);
      return len;
    }

    /** Copies what could not be sent into the connection's own buffer, which grows if it is too small. */
    method KeepRest(buf: array<byte>, from: nat, len: nat)
      requires from + len <= buf.Length && 0 < len && buf != truncated
      requires truncated != null ==> truncated.Length == allocation
      modifies this`truncated, this`allocation, this`offset, this`left, truncated
      ensures truncated != null && truncated.Length == allocation && offset == 0 && left == len <= allocation
      ensures truncated != old(truncated) ==> fresh(truncated)
      ensures Pending() == old(buf[from..from + len])
    {
      if truncated == null || len > allocation {
        allocation := len;
        truncated := new byte[len];
      }
      offset := 0;
      left := len;
      ghost var s := buf[from..from + len];
      var i := 0;
      while i < len
        invariant i <= len && truncated[..i] == s[..i]
        modifies truncated
      {
        truncated[i] := buf[from + i];
        i := i + 1;
      }
      assert truncated[..len] == s;
    }

    /** When the socket can take more, what is pending goes first; false means that the connection is to be closed. */
    method Flush(outcome: Outcome) returns (ok: bool)
      requires Valid() && Took(outcome) <= left
      modifies this, truncated
      ensures ok <==> if old(left) > 0 then Flushed(old(left), mode, outcome) >= 0 else mode == Open
      ensures Valid() && accepted == old(accepted) && left == old(left) - Took(outcome) && mode == old(mode)
      ensures cleanBuffer == old(cleanBuffer)
      ensures truncated != old(truncated) ==> fresh(truncated)
    {
      if left > 0 {
        var n := IssueRaw(truncated, offset, left, outcome);
        ok := n >= 0;
      } else {
        ok := mode == Open;
      }
    }
  }
}
