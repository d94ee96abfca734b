// Sockets and files as the transfer loops see them. A socket accepts or delivers some bytes
// and then fails, at a point nobody chooses; every single call moves as much as it likes.
module SocketIo {
  import opened Tables

  const BUFFER_SIZE: nat := 4096

  // What gets through of `data` when the connection carries `capacity` more bytes.
  function Carried(data: Bytes, capacity: nat): Bytes
  {
    if |data| <= capacity then data else data[..capacity]
  }

  // One block more: either it gets through, or what got through of it ends the delivery.
  lemma BlockCarried(data: Bytes, at: nat, once: nat, capacity: nat)
    requires at <= capacity && at + once <= |data|
    ensures at + once <= capacity ==>
              data[..at] + Carried(data[at..at + once], capacity - at) == data[..at + once]
    ensures at + once > capacity ==>
              data[..at] + Carried(data[at..at + once], capacity - at) == Carried(data, capacity)
  {
  }

  // The same behind what was sent before, and with what is left of the capacity.
  lemma BlockSent(before: Bytes, data: Bytes, at: nat, once: nat, capacity: nat)
    requires at <= capacity && at + once <= |data|
    ensures var block := Carried(data[at..at + once], capacity - at);
            && |block| == (if once <= capacity - at then once else capacity - at)
            && before + data[..at] + block ==
               before + if at + once <= capacity then data[..at + once] else Carried(data, capacity)
  {
    BlockCarried(data, at, once, capacity);
    assert before + data[..at] + Carried(data[at..at + once], capacity - at) ==
           before + (data[..at] + Carried(data[at..at + once], capacity - at));
  }

  // What is still to be read after a receiver has taken what it waits for, or all there is.
  function Unread(arriving: Bytes, wanted: nat): Bytes
  {
    if |arriving| <= wanted then [] else arriving[wanted..]
  }

  lemma WhatIsCarried(data: Bytes, capacity: nat, arriving: Bytes, wanted: nat)
    ensures Carried(data, capacity) <= data
    ensures |Carried(data, capacity)| == if |data| <= capacity then |data| else capacity
    ensures var left := Unread(arriving, wanted);
            && |left| == (if |arriving| <= wanted then 0 else |arriving| - wanted)
            && arriving == arriving[..|arriving| - |left|] + left
  {
  }

  datatype SendResult = Sent(n: nat) | Interrupted | Failed

  // The sending end of a connection that will carry `capacity` more bytes and interrupt at
  // most `interrupts` more calls.
  class Outgoing {
    var sent: Bytes
    var capacity: nat
    var interrupts: nat

    constructor (capacity: nat, interrupts: nat)
      ensures sent == [] && this.capacity == capacity && this.interrupts == interrupts
    {
      sent, this.capacity, this.interrupts := [], capacity, interrupts;
    }

    // One sendfile call.
    method SendSome(buf: Bytes) returns (r: SendResult)
      requires buf != []
      modifies this
      ensures match r
              case Sent(n) =>
                0 < n <= |buf| && n <= old(capacity) && capacity == old(capacity) - n
                && sent == old(sent) + buf[..n] && interrupts == old(interrupts)
              case Interrupted => old(interrupts) > 0 && interrupts == old(interrupts) - 1
                                  && sent == old(sent) && capacity == old(capacity)
              case Failed => old(capacity) == 0 && capacity == 0 && sent == old(sent)
    {
      if * {
        if interrupts > 0 {
          interrupts := interrupts - 1;
          return Interrupted;
        }
      }
      if capacity == 0 {
        return Failed;
      }
      var n: nat :| 0 < n <= |buf| && n <= capacity;
      sent, capacity := sent + buf[..n], capacity - n;
      return Sent(n);
    }

    // send_full: a plain send that is interrupted counts as a failure of the connection.
    method SendFull(buf: Bytes) returns (ok: bool)
      modifies this
      ensures sent == old(sent) + Carried(buf, old(capacity))
      ensures ok == (|buf| <= old(capacity))
      ensures capacity == old(capacity) - |Carried(buf, old(capacity))|
    {
      var total := 0;
      while total < |buf|
        invariant 0 <= total <= |buf| && total <= old(capacity) && capacity == old(capacity) - total
        invariant sent == old(sent) + buf[..total]
      {
        if capacity == 0 {
          return false;
        }
        var n: nat :| 0 < n <= |buf| - total && n <= capacity;
        sent, capacity := sent + buf[total..total + n], capacity - n;
        total := total + n;
      }
      assert buf[..total] == buf;
      return true;
    }
  }

  lemma WholeCarried(data: Bytes, capacity: nat)
    requires |data| <= capacity
    ensures Carried(data, capacity) == data
  {
  }

  // A partial send: some more of the range, or the end of the connection.
  lemma PartCarried(file: Bytes, offset: nat, current: nat, end: nat, n: nat)
    requires offset <= current <= end <= |file| && current + n <= end
    ensures file[offset..current] + file[current..end][..n] == file[offset..current + n]
    ensures file[offset..current] == Carried(file[offset..end], current - offset)
  {
    assert file[current..end][..n] == file[current..current + n];
    assert file[offset..end][..current - offset] == file[offset..current];
  }

  // send_file_by_sendfile: file[offset..end), retrying interrupted calls.
  method SendFileBySendfile(sock: Outgoing, file: Bytes, offset: nat, end: nat) returns (ok: bool)
    requires offset <= end <= |file|
    modifies sock
    ensures sock.sent == old(sock.sent) + Carried(file[offset..end], old(sock.capacity))
    ensures ok == (end - offset <= old(sock.capacity))
  {
    hide Carried;
    var current, remaining := offset, end - offset;
    ghost var before, capacity := sock.sent, sock.capacity;
    PartCarried(file, offset, end, end, 0);
    while remaining > 0
      invariant offset <= current <= end && remaining == end - current
      invariant current - offset <= capacity && sock.capacity == capacity - (current - offset)
      invariant sock.sent == before + file[offset..current]
      decreases remaining, sock.interrupts
    {
      var r := sock.SendSome(file[current..end]);
      match r
      case Interrupted =>
      case Failed =>
        PartCarried(file, offset, current, end, 0);
        return false;
      case Sent(n) =>
        PartCarried(file, offset, current, end, n);
        assert before + file[offset..current] + file[current..end][..n] ==
               before + (file[offset..current] + file[current..end][..n]);
        current, remaining := current + n, remaining - n;
    }
    WholeCarried(file[offset..end], capacity);
    return true;
  }

  // send_file_by_mmap, on both ends: the same bytes in blocks of BUFFER_SIZE.
  method SendFileByMmap(sock: Outgoing, file: Bytes, offset: nat, end: nat) returns (ok: bool)
    requires offset <= end <= |file|
    modifies sock
    ensures sock.sent == old(sock.sent) + Carried(file[offset..end], old(sock.capacity))
    ensures ok == (end - offset <= old(sock.capacity))
  {
    hide Carried;
    var remaining, sentCount := end - offset, 0;
    var data := file[offset..end];
    ghost var before, capacity := sock.sent, sock.capacity;
    while sentCount < remaining
      invariant 0 <= sentCount <= remaining && sentCount <= capacity
      invariant sock.capacity == capacity - sentCount
      invariant sock.sent == before + data[..sentCount]
    {
      var once := if remaining - sentCount < BUFFER_SIZE then remaining - sentCount else BUFFER_SIZE;
      BlockSent(before, data, sentCount, once, capacity);
      var sent := sock.SendFull(data[sentCount..sentCount + once]);
      if !sent {
        return false;
      }
      sentCount := sentCount + once;
    }
    WholeCarried(data, capacity);
    assert data[..sentCount] == data;
    return true;
  }

  // send_file_by_read_loop of the client: read may return less than asked for.
  method SendFileByReadLoop(sock: Outgoing, file: Bytes, offset: nat) returns (ok: bool)
    requires offset <= |file|
    modifies sock
    ensures sock.sent == old(sock.sent) + Carried(file[offset..], old(sock.capacity))
    ensures ok == (|file| - offset <= old(sock.capacity))
  {
    hide Carried;
    var remaining := |file| - offset;
    var data := file[offset..];
    ghost var before, capacity := sock.sent, sock.capacity;
    while remaining > 0
      invariant 0 <= remaining <= |data| && |data| - remaining <= capacity
      invariant sock.capacity == capacity - (|data| - remaining)
      invariant sock.sent == before + data[..|data| - remaining]
    {
      var once := if remaining < BUFFER_SIZE then remaining else BUFFER_SIZE;
      var at := |data| - remaining;
      var nread: nat :| 0 < nread <= once;
      BlockSent(before, data, at, nread, capacity);
      var sent := sock.SendFull(data[at..at + nread]);
      if !sent {
        return false;
      }
      remaining := remaining - nread;
    }
    WholeCarried(data, capacity);
    assert data[..|data| - remaining] == data;
    return true;
  }

  // The receiving end: `arriving` is what still comes in before the connection ends.
  class Incoming {
    var arriving: Bytes

    constructor (arriving: Bytes)
      ensures this.arriving == arriving
    {
      this.arriving := arriving;
    }

    // recv: nothing at the end of the connection, else at least one byte.
    method Recv(max: nat) returns (chunk: Bytes)
      requires max > 0
      modifies this
      ensures old(arriving) == chunk + arriving && |chunk| <= max
      ensures chunk == [] <==> old(arriving) == []
    {
      if arriving == [] {
        return [];
      }
      var n: nat :| 0 < n <= |arriving| && n <= max;
      chunk, arriving := arriving[..n], arriving[n..];
    }

    // recv_full: all of `len` bytes, or a failure that has used up the connection.
    method RecvFull(len: nat) returns (ok: bool, buf: Bytes)
      modifies this
      ensures ok == (len <= |old(arriving)|)
      ensures ok ==> buf == old(arriving)[..len] && arriving == old(arriving)[len..]
      ensures !ok ==> arriving == []
    {
      buf := [];
      while |buf| < len
        invariant |buf| <= len && old(arriving) == buf + arriving
        decreases len - |buf|
      {
        var chunk := Recv(len - |buf|);
        if chunk == [] {
          return false, buf;
        }
        buf := buf + chunk;
      }
      return true, buf;
    }
  }

  // An open file with its write position.
  class DiskFile {
    var data: Bytes
    var pos: nat

    constructor (data: Bytes)
      ensures this.data == data && pos == 0
    {
      this.data, pos := data, 0;
    }

    // ftruncate cuts, or extends with zero bytes.
    method Truncate(len: nat)
      modifies this`data
      ensures |data| == len
      ensures len <= |old(data)| ==> data == old(data)[..len]
      ensures len >= |old(data)| ==> old(data) <= data
    {
      data := if len <= |data| then data[..len] else data + seq(len - |data|, _ => 0);
    }

    // write_file_full: a single write may take less than it is given.
    method WriteFull(buf: Bytes)
      requires pos <= |data|
      modifies this
      ensures pos == old(pos) + |buf|
      ensures data == old(data)[..old(pos)] + buf + if pos <= |old(data)| then old(data)[pos..] else []
    {
      var total := 0;
      while total < |buf|
        invariant 0 <= total <= |buf| && pos == old(pos) + total <= |data|
        invariant data == old(data)[..old(pos)] + buf[..total] + if pos <= |old(data)| then old(data)[pos..] else []
      {
        var n: nat :| 0 < n <= |buf| - total;
        var rest := if pos + n <= |data| then data[pos + n..] else [];
        data := data[..pos] + buf[total..total + n] + rest;
        pos, total := pos + n, total + n;
      }
    }

    // The same at the end of the file.
    method Append(buf: Bytes)
      requires pos == |data|
      modifies this
      ensures data == old(data) + buf && pos == |data|
    {
      WriteFull(buf);
    }
  }
}
