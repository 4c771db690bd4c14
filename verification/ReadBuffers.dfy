/**
 The VirtualReadBuffer implementations.  Each stands for a position in one flat stream
 of octets: Get is the octet at the position, and Next moves to the following octet
 if there is one.  The buffered readers keep that view while they refill.  When there
 is none Next fails, except on an empty string and on a socket whose peer has closed.
 */
module ReadBuffers {
  import opened Numbers

  function Least(m: nat, n: nat): nat {
    if m < n then m else n
  }

  /** StringReadBuffer, the flat stream itself. */
  class StringReadBuffer {
    const stream: string
    var idx: nat

    ghost predicate Valid()
      reads this
    {
      idx < |stream|
    }

    function Pos(): nat
      reads this
    {
      idx
    }

    constructor (data: string)
      ensures stream == data && Pos() == 0 && (data != "" ==> Valid())
    {
      stream, idx := data, 0;
    }

    function Get(): char
      requires Valid()
      reads this
    {
      stream[idx]
    }

    /** False stands for SystemError::ecEAGAIN. On the empty string the bound, length - 1 without a sign, is the largest
        size_t, and every call succeeds. */
    method Next() returns (ok: bool)
      requires Valid() || (stream == "" && idx < ULONG_MAX)
      modifies this
      ensures stream != "" ==> Valid() && ok == (old(Pos()) + 1 < |stream|)
      ensures stream == "" ==> ok
      ensures Pos() == if ok then old(Pos()) + 1 else old(Pos())
    {
      if idx >= (if |stream| == 0 then ULONG_MAX else |stream| - 1) {
        ok := false;
      } else {
        idx := idx + 1;
        ok := true;
      }
    }
  }

  /** SocketReadBuffer over a peer that delivers the octets of `stream` and then closes the connection, or does not:
      receive then succeeds with no octets, or ends in ecEAGAIN. */
  class SocketReadBuffer {
    ghost const stream: seq<char>
    const closes: bool
    ghost var base: nat           // octets delivered before the ones in the buffer
    var rest: seq<char>           // octets the peer has still to deliver
    var buffer: array<char>
    var idx: nat
    var received: nat
    var underflows: nat

    ghost predicate Valid()
      reads this, buffer
    {
      && received <= buffer.Length
      && base + received <= |stream|
      && buffer[..received] == stream[base..base + received]
      && rest == stream[base + received..]
    }

    /** The buffer holds the octet at the position. */
    ghost predicate Filled()
      reads this, buffer
    {
      Valid() && idx < received
    }

    /** The stream is over and the reader went on: the buffer holds what was delivered last. */
    ghost predicate Spent()
      reads this, buffer
    {
      Valid() && closes && base == |stream| && idx == 0 && received == 0 && buffer.Length >= 1
    }

    ghost function Pos(): nat
      reads this
    {
      base + idx
    }

    constructor (octets: seq<char>, closes: bool, bufsize: nat)
      requires bufsize >= 1
      ensures Valid() && stream == octets && this.closes == closes && Pos() == 0 && received == 0
      ensures fresh(buffer) && buffer.Length == bufsize
    {
      stream, rest, this.closes := octets, octets, closes;
      base, idx, received, underflows := 0, 0, 0, 0;
      buffer := new char[bufsize];
    }

    /** receive: any non-empty beginning of what is left that fits the buffer. When nothing is left, no octets from a
        peer that closed and ecEAGAIN from one that did not. */
    method Receive() returns (ok: bool)
      requires Valid() && buffer.Length >= 1
      modifies this, buffer
      ensures Valid() && buffer == old(buffer) && idx == old(idx) && underflows == old(underflows)
      ensures base == old(base + received)
      ensures ok == (old(base + received) < |stream| || closes)
      ensures if old(base + received) < |stream| then received >= 1 else received == 0 && buffer[..] == old(buffer[..])
    {
      base, received := base + received, 0;
      ok := rest != [] || closes;
      if rest != [] {
        var n: nat :| 1 <= n <= |rest| && n <= buffer.Length;
        var i := 0;
        while i < n
          invariant 0 <= i <= n <= |rest| && n <= buffer.Length && received == 0
          invariant base == old(base + received) && rest == stream[base..] && rest == old(rest)
          invariant buffer == old(buffer) && buffer[..i] == rest[..i]
          invariant idx == old(idx) && underflows == old(underflows)
        {
          buffer[i] := rest[i];
          i := i + 1;
        }
        received, rest := n, rest[n..];
        assert buffer[..received] == stream[base..][..n];
      }
    }

    method Underflow() returns (ok: bool)
      requires Valid() && buffer.Length >= 1 && (idx <= received || base + received == |stream|)
      modifies this, buffer
      ensures Valid() && buffer == old(buffer)
      ensures ok == (old(Pos()) < |stream| || closes)
      ensures old(Pos()) < |stream| ==> Filled() && Pos() == old(Pos())
      ensures old(Pos()) >= |stream| ==> (closes ==> Spent()) && buffer[..] == old(buffer[..])
    {
      ok := true;
      if idx >= received {
        underflows := underflows + 1;
        ok := Receive();
        if ok {
          idx := 0;
        }
      }
    }

    /** After the end of a stream, get is the first octet of the last delivery. */
    method Get() returns (c: char)
      requires Filled() || Spent()
      ensures Filled() ==> c == stream[Pos()]
      ensures Spent() ==> c == buffer[0]
    {
      c := buffer[idx];
      if idx < received {
        assert buffer[..received][idx] == stream[base..base + received][idx];
      }
    }

    /** Succeeds exactly when an octet follows or the peer has closed the connection. */
    method Next() returns (ok: bool)
      requires Filled() || Spent()
      modifies this, buffer
      ensures Valid() && buffer == old(buffer)
      ensures ok == (old(Pos()) + 1 < |stream| || closes)
      ensures old(Pos()) + 1 < |stream| ==> Filled() && Pos() == old(Pos()) + 1
      ensures old(Pos()) + 1 >= |stream| ==> (closes ==> Spent()) && buffer[..] == old(buffer[..])
    {
      idx := idx + 1;
      ok := Underflow();
    }

    /** After the first fill, n rounds of get and next deliver the octets of the stream one after the other, whatever
        the buffer size and however the peer splits them. Beyond the stream the rounds end in a failure, or, if the peer
        closed the connection, go on delivering one and the same octet. */
    method ReadMany(n: nat) returns (octets: seq<char>)
      requires Valid() && buffer.Length >= 1 && Pos() == 0 && idx == received
      modifies this, buffer
      ensures buffer == old(buffer) && |octets| == if closes then n else Least(n, |stream|)
      ensures octets[..Least(n, |stream|)] == stream[..Least(n, |stream|)]
      ensures forall k :: |stream| <= k < |octets| ==> octets[k] == buffer[0]
    {
      octets := [];
      var ok := Underflow();
      while ok && |octets| < n
        invariant buffer == old(buffer) && buffer.Length >= 1 && |octets| <= n
        invariant |octets| < |stream| ==> ok && Filled() && Pos() == |octets|
        invariant |octets| >= |stream| ==> ok == closes && (closes ==> Spent())
        invariant !closes ==> |octets| <= |stream|
        invariant octets[..Least(|octets|, |stream|)] == stream[..Least(|octets|, |stream|)]
        invariant forall k :: |stream| <= k < |octets| ==> octets[k] == buffer[0]
        decreases n - |octets|
      {
        var c := Get();
        octets := octets + [c];
        ok := Next();
      }
    }
  }

  /** FileReadBuffer: fread fills the buffer unless the file ends first. */
  class FileReadBuffer {
    ghost const stream: seq<char>
    ghost var base: nat
    var rest: seq<char>
    var buffer: array<char>
    var idx: nat
    var count: nat                // read_
    var usable: bool              // the constructor did not throw

    ghost predicate Valid()
      reads this, buffer
    {
      && buffer.Length >= 1
      && count <= buffer.Length
      && base + count <= |stream|
      && buffer[..count] == stream[base..base + count]
      && rest == stream[base + count..]
    }

    ghost predicate Filled()
      reads this, buffer
    {
      Valid() && idx < count
    }

    ghost function Pos(): nat
      reads this
    {
      base + idx
    }

    /** The constructor fills the buffer, and throws if the file is empty. */
    constructor (octets: seq<char>, bufsize: nat)
      requires bufsize >= 1
      ensures Valid() && stream == octets && fresh(buffer)
      ensures usable == (octets != []) && (usable ==> Filled() && Pos() == 0)
    {
      stream, rest := octets, octets;
      base, idx, count, usable := 0, 0, 0, false;
      buffer := new char[bufsize];
      new;
      var ok := Underflow();
      usable := ok;
    }

    /** fread: as many of the octets that are left as fit the buffer. */
    method Fread() returns (n: nat)
      requires Valid()
      modifies buffer
      ensures n == if |rest| < buffer.Length then |rest| else buffer.Length
      ensures buffer[..n] == rest[..n]
    {
      n := if |rest| < buffer.Length then |rest| else buffer.Length;
      var i := 0;
      while i < n
        invariant 0 <= i <= n && buffer[..i] == rest[..i]
      {
        buffer[i] := rest[i];
        i := i + 1;
      }
    }

    method Underflow() returns (ok: bool)
      requires Valid() && idx <= count
      modifies this, buffer
      ensures Valid() && buffer == old(buffer)
      ensures ok == (old(Pos()) < |stream|)
      ensures ok ==> Filled() && Pos() == old(Pos())
    {
      ok := true;
      if idx >= count {
        var n := Fread();
        base := base + count;
        count, rest, idx := n, rest[n..], 0;
        assert buffer[..count] == stream[base..][..n];
        ok := count != 0;
      }
    }

    method Get() returns (c: char)
      requires Filled()
      ensures c == stream[Pos()]
    {
      c := buffer[idx];
      assert buffer[..count][idx] == stream[base..base + count][idx];
    }

    method Next() returns (ok: bool)
      requires Filled()
      modifies this, buffer
      ensures Valid() && buffer == old(buffer)
      ensures ok == (old(Pos()) + 1 < |stream|)
      ensures ok ==> Filled() && Pos() == old(Pos()) + 1
    {
      idx := idx + 1;
      ok := Underflow();
    }
  }
}
