/** The traced program's memory and the two copy routines that reach into it: a bulk transfer, and
    a fallback that moves one 8-byte word at a time through ptrace. */
module ChildMemory {
  import opened Sha256
  import opened CText

  type Memory = map<nat, byte>

  const WORD := 8

  predicate Mapped(mem: Memory, addr: nat, n: nat) { forall a :: addr <= a < addr + n ==> a in mem }

  function BytesAt(mem: Memory, addr: nat, n: nat): (r: seq<byte>)
    requires Mapped(mem, addr, n)
    ensures |r| == n
  {
    seq(n, i requires 0 <= i < n => mem[addr + i])
  }

  /** mem with buf stored at addr; addresses outside mem stay outside. */
  function Overlay(mem: Memory, addr: nat, buf: seq<byte>): Memory {
    map a | a in mem :: if addr <= a < addr + |buf| then buf[a - addr] else mem[a]
  }

  /** A process whose memory ptrace reads and writes by words; either call may be refused. */
  class Child {
    var bytes: Memory
    const unreadable: set<nat>
    const unwritable: set<nat>

    predicate CanPeek(addr: nat)
      reads this
    {
      addr !in unreadable && Mapped(bytes, addr, WORD)
    }

    predicate CanPoke(addr: nat)
      reads this
    {
      addr !in unwritable && Mapped(bytes, addr, WORD)
    }

    constructor (bytes: Memory, unreadable: set<nat>, unwritable: set<nat>)
      ensures this.bytes == bytes && this.unreadable == unreadable && this.unwritable == unwritable
    {
      this.bytes := bytes;
      this.unreadable := unreadable;
      this.unwritable := unwritable;
    }

    method Peek(addr: nat) returns (ok: bool, word: seq<byte>)
      ensures ok == CanPeek(addr) && |word| == WORD
      ensures ok <==> addr !in unreadable && forall a :: addr <= a < addr + 8 ==> a in bytes
      ensures ok ==> word == BytesAt(bytes, addr, WORD)
    {
      if !CanPeek(addr) {
        return false, [255, 255, 255, 255, 255, 255, 255, 255];
      }
      return true, BytesAt(bytes, addr, WORD);
    }

    method Poke(addr: nat, word: seq<byte>) returns (ok: bool)
      requires |word| == WORD
      modifies this
      ensures ok == old(CanPoke(addr))
      ensures ok <==> addr !in unwritable && forall a :: addr <= a < addr + 8 ==> a in old(bytes)
      ensures bytes == if ok then Overlay(old(bytes), addr, word) else old(bytes)
    {
      ok := CanPoke(addr);
      if ok {
        bytes := Overlay(bytes, addr, word);
      }
    }

    /** write_child_mem.  `bulk` is what process_vm_writev did: how many leading bytes it stored, or
        that it failed. */
    method Write(addr: nat, buf: seq<byte>, bulk: Option<nat>) returns (r: int)
      requires bulk.Some? ==> bulk.value <= |buf| && Mapped(bytes, addr, bulk.value)
      modifies this
      ensures -1 <= r <= |buf|
      ensures r == -1 ==> bytes == old(bytes)
      ensures r >= 0 ==> Mapped(old(bytes), addr, r) && bytes == Overlay(old(bytes), addr, buf[..r])
      ensures bulk.Some? ==> r == bulk.value
      ensures bulk.None? && buf != [] ==> (r == |buf| <==> old(EveryWordReachable(addr, |buf|)))
      ensures bulk.None? && buf != [] && r < |buf| ==>
                r != 0 && !old(WordReachable(addr, |buf|, if r < 0 then 0 else r))
      ensures bulk.None? && buf == [] ==> r == -1
    {
      if bulk.Some? {
        bytes := Overlay(bytes, addr, buf[..bulk.value]);
        return bulk.value;
      }
      if |buf| == 0 {
        return -1;
      }
      var copied := 0;
      OverlayOfNothing(bytes, addr);
      assert buf[..0] == [];
      while copied < |buf|
        invariant copied <= |buf| && (copied % WORD == 0 || copied == |buf|)
        invariant Mapped(old(bytes), addr, copied) && bytes == Overlay(old(bytes), addr, buf[..copied])
        invariant forall k :: 0 <= k < copied && k % WORD == 0 ==> old(WordReachable(addr, |buf|, k))
      {
        OverlayKeepsMapping(old(bytes), addr, buf[..copied]);
        assert WordReachable(addr, |buf|, copied) == old(WordReachable(addr, |buf|, copied));
        ghost var before := bytes;
        var chunk := WriteWord(addr, buf, copied);
        if chunk == 0 {
          return if copied != 0 then copied else -1;
        }
        OneWordFurther(old(bytes), addr, buf, copied, chunk);
        copied := copied + chunk;
      }
      assert buf[..copied] == buf;
      return copied;
    }

    /** One turn of the fallback's loop: the chunk stored, or 0 if ptrace refused. */
    method WriteWord(addr: nat, buf: seq<byte>, copied: nat) returns (chunk: nat)
      requires copied < |buf|
      modifies this
      ensures chunk == 0 <==> !old(WordReachable(addr, |buf|, copied))
      ensures chunk == 0 ==> bytes == old(bytes)
      ensures chunk > 0 ==>
                && chunk == (if copied + WORD <= |buf| then WORD else |buf| - copied)
                && Mapped(old(bytes), addr + copied, chunk)
                && bytes == Overlay(old(bytes), addr + copied, buf[copied..copied + chunk])
    {
      chunk := WORD;
      var word: seq<byte>;
      if copied + chunk > |buf| {
        var ok, rest := Peek(addr + copied);
        if !ok {
          return 0;
        }
        chunk := |buf| - copied;
        word := buf[copied..copied + chunk] + rest[chunk..];
        TailRestored(bytes, addr + copied, buf[copied..copied + chunk]);
      } else {
        word := buf[copied..copied + chunk];
      }
      var ok := Poke(addr + copied, word);
      if !ok {
        return 0;
      }
    }

    /** Whether the word the fallback moves at offset k can be moved: the last, partial one is read first. */
    ghost predicate WordReachable(addr: nat, len: nat, k: nat)
      reads this
    {
      CanPoke(addr + k) && (k + WORD > len ==> CanPeek(addr + k))
    }

    ghost predicate EveryWordReachable(addr: nat, len: nat)
      reads this
    {
      forall k :: 0 <= k < len && k % WORD == 0 ==> WordReachable(addr, len, k)
    }

    /** read_child_mem.  `bulk` is what process_vm_readv did. */
    method Read(addr: nat, len: nat, bulk: Option<nat>) returns (r: int, buf: seq<byte>)
      requires bulk.Some? ==> bulk.value <= len && Mapped(bytes, addr, bulk.value)
      ensures -1 <= r <= len && |buf| == if r < 0 then 0 else r
      ensures r >= 0 ==> Mapped(bytes, addr, r) && buf == BytesAt(bytes, addr, r)
      ensures bulk.None? && len > 0 ==>
                (r == len <==> forall k :: 0 <= k < len && k % WORD == 0 ==> CanPeek(addr + k))
      ensures bulk.Some? ==> r == bulk.value
      ensures bulk.None? && len > 0 && r < len ==> r != 0 && !CanPeek(addr + if r < 0 then 0 else r)
      ensures bulk.None? && len == 0 ==> r == -1
    {
      if bulk.Some? {
        return bulk.value, BytesAt(bytes, addr, bulk.value);
      }
      if len == 0 {
        return -1, [];
      }
      var copied := 0;
      buf := [];
      while copied < len
        invariant copied <= len && (copied % WORD == 0 || copied == len)
        invariant Mapped(bytes, addr, copied) && buf == BytesAt(bytes, addr, copied)
        invariant forall k :: 0 <= k < copied && k % WORD == 0 ==> CanPeek(addr + k)
      {
        var ok, word := Peek(addr + copied);
        if !ok {
          if copied == 0 {
            return -1, [];
          }
          return copied, buf;
        }
        var chunk := WORD;
        if copied + chunk > len {
          chunk := len - copied;
        }
        buf := buf + word[..chunk];
        copied := copied + chunk;
      }
      return copied, buf;
    }
  }

  lemma OverlayOfNothing(mem: Memory, addr: nat)
    ensures Overlay(mem, addr, []) == mem
  {
  }

  lemma OverlayKeepsMapping(mem: Memory, addr: nat, buf: seq<byte>)
    ensures Overlay(mem, addr, buf).Keys == mem.Keys
  {
  }

  /** Storing a word whose tail was just read stores only its front. */
  lemma TailRestored(mem: Memory, addr: nat, front: seq<byte>)
    requires |front| <= WORD && Mapped(mem, addr, WORD)
    ensures Overlay(mem, addr, front + BytesAt(mem, addr, WORD)[|front|..]) == Overlay(mem, addr, front)
  {
    var l := Overlay(mem, addr, front + BytesAt(mem, addr, WORD)[|front|..]);
    assert l.Keys == Overlay(mem, addr, front).Keys;
  }

  /** The next chunk extends the overlay. */
  lemma OneWordFurther(mem: Memory, addr: nat, buf: seq<byte>, copied: nat, chunk: nat)
    requires copied + chunk <= |buf|
    ensures Overlay(Overlay(mem, addr, buf[..copied]), addr + copied, buf[copied..copied + chunk])
            == Overlay(mem, addr, buf[..copied + chunk])
  {
    var l := Overlay(Overlay(mem, addr, buf[..copied]), addr + copied, buf[copied..copied + chunk]);
    var r := Overlay(mem, addr, buf[..copied + chunk]);
    assert l.Keys == r.Keys;
  }

  /** What was written is what is read back, and every other byte is what it was. */
  lemma WriteThenRead(mem: Memory, addr: nat, buf: seq<byte>)
    requires Mapped(mem, addr, |buf|)
    ensures Mapped(Overlay(mem, addr, buf), addr, |buf|) && BytesAt(Overlay(mem, addr, buf), addr, |buf|) == buf
    ensures Overlay(mem, addr, buf).Keys == mem.Keys
    ensures forall a :: a in mem && !(addr <= a < addr + |buf|) ==> Overlay(mem, addr, buf)[a] == mem[a]
  {
  }
}
