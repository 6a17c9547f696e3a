/**
The window buffer that reads multipart form data: a fixed buffer, a window of unread
bytes that moves through it, refills from the client, and consumption by lines and
by chunks that stop at a part delimiter.
*/
module Multipart {
  import opened Prelude
  import opened Bytes

  const FILLUNIT := 8192

  /**
  What `ap_get_client_block` does when called: bytes it can hand over (none or an error
  if <= 0), and r->remaining after it, by the number of bytes that are still to come.
  */
  datatype Offer = Offer(bytes: int, left: nat -> int)

  function Max0(x: int): nat { if x < 0 then 0 else x }

  // ---- searching ----

  predicate OccursAt(needle: seq<Byte>, s: seq<Byte>, i: int) {
    0 <= i && i + |needle| <= |s| && s[i..i + |needle|] == needle
  }

  /** `i` is the first place where `needle` lies completely in `s`. */
  ghost predicate FirstIn(needle: seq<Byte>, s: seq<Byte>, i: int) {
    OccursAt(needle, s, i) && forall j :: 0 <= j < i ==> !OccursAt(needle, s, j)
  }

  /** `memchr` on the bytes [from, to) of a buffer. */
  method FindByte(mem: array<Byte>, from: nat, to: nat, b: Byte) returns (p: Option<nat>)
    requires from <= to <= mem.Length
    ensures p.Some? ==> from <= p.value < to && mem[p.value] == b && forall i :: from <= i < p.value ==> mem[i] != b
    ensures p.None? ==> forall i :: from <= i < to ==> mem[i] != b
  {
    var i := from;
    while i < to
      invariant from <= i <= to && forall j :: from <= j < i ==> mem[j] != b
    {
      if mem[i] == b { return Some(i); }
      i := i + 1;
    }
    return None;
  }

  /**
  A match of `my_memstr` at offset `p` of a buffer, for the window [begin, begin + len).
  The comparison is of the whole needle and may run over the end of the window, into bytes
  left over in the buffer; with `partial` such a match is accepted. There is none where it
  would run over the end of the buffer itself.
  */
  predicate Accepts(mem: seq<Byte>, begin: nat, len: nat, needle: seq<Byte>, partial: bool, p: int) {
    begin <= p < begin + len && OccursAt(needle, mem, p) && (partial || p + |needle| <= begin + len)
  }

  lemma StartsWithFirst(needle: seq<Byte>, s: seq<Byte>, i: nat)
    requires needle != [] && i < |s|
    ensures OccursAt(needle, s, i) ==> s[i] == needle[0]
  {
    if OccursAt(needle, s, i) {
      assert s[i..i + |needle|][0] == s[i];
    }
  }

  method MemStr(mem: array<Byte>, begin: nat, len: nat, needle: seq<Byte>, partial: bool) returns (p: Option<nat>)
    requires begin + len <= mem.Length && needle != []
    ensures p.Some? ==>
              && Accepts(mem[..], begin, len, needle, partial, p.value)
              && forall i :: i < p.value ==> !Accepts(mem[..], begin, len, needle, partial, i)
    ensures p.None? ==> forall i :: !Accepts(mem[..], begin, len, needle, partial, i)
  {
    var end := begin + len;
    var at := begin;
    while at < end
      invariant begin <= at <= end
      invariant forall i :: i < at ==> !Accepts(mem[..], begin, len, needle, partial, i)
    {
      var hit := FindByte(mem, at, end, needle[0]);
      forall i | at <= i < end && mem[i] != needle[0] ensures !Accepts(mem[..], begin, len, needle, partial, i) {
        StartsWithFirst(needle, mem[..], i);
      }
      if hit.None? { return None; }
      if Accepts(mem[..], begin, len, needle, partial, hit.value) { return hit; }
      at := hit.value + 1;
    }
    return None;
  }

  /** Where `needle` first lies completely in `s`. */
  ghost function Find(needle: seq<Byte>, s: seq<Byte>): (r: Option<nat>)
    ensures r.Some? ==> FirstIn(needle, s, r.value)
    ensures forall i :: FirstIn(needle, s, i) ==> r == Some(i)
  {
    if i: nat :| FirstIn(needle, s, i) then Some(i) else None
  }

  // ---- lines ----

  /** The text of a line: without its LF and without a CR in front of that. */
  function LineText(raw: seq<Byte>): seq<Byte> {
    if raw == [] || raw[|raw| - 1] != LF then raw
    else if |raw| >= 2 && raw[|raw| - 2] == CR then raw[..|raw| - 2]
    else raw[..|raw| - 1]
  }

  lemma ChunkWithoutNul(raw: seq<Byte>, buf: seq<Byte>)
    ensures NoNul(raw + buf) ==> NoNul(raw) && UpToNul(buf) == buf
  {
    UpToNulExactly(buf);
    if NoNul(raw + buf) {
      assert (raw + buf)[..|raw|] == raw && (raw + buf)[|raw|..] == buf;
    }
  }

  /** All lines read, one after the other. */
  function Joined(raws: seq<seq<Byte>>): seq<Byte> {
    if raws == [] then [] else Joined(raws[..|raws| - 1]) + raws[|raws| - 1]
  }

  // ---- chunks ----

  /** How much of the window one read takes when the delimiter starts at `stop`. */
  function CutAt(window: seq<Byte>, stop: Option<nat>, bytes: nat): (n: nat)
    requires bytes >= 1 && (stop.Some? ==> stop.value <= |window|)
    ensures n <= |window| && n <= bytes - 1
  {
    var len := Min(if stop.Some? then stop.value else |window|, bytes - 1);
    if stop.Some? && len > 0 && window[len - 1] == CR then len - 1 else len
  }

  /** The body of a part: what stands before its delimiter, without the CR that belongs to it. */
  function BodyBefore(s: seq<Byte>, stop: nat): seq<Byte>
    requires stop <= |s|
  {
    if stop > 0 && s[stop - 1] == CR then s[..stop - 1] else s[..stop]
  }

  /** Either nothing has been appended yet and the chunk read is the whole body, or all of it has. */
  predicate BodySoFar(all: seq<Byte>, raw: seq<Byte>, buf: seq<Byte>, out: seq<Byte>) {
    if raw == [] then out == [] && buf == all else buf == [] && raw == all && out == UpToNul(all)
  }

  lemma JoinOne(s: seq<Byte>, from: nat, mid: nat, to: nat)
    requires from <= mid <= to <= |s|
    ensures s[from..mid] + s[mid..to] == s[from..to]
  {
  }

  /** A line that lies in the buffer at `at`, read from there. */
  lemma LineInBuffer(mem: array<Byte>, at: nat, raw: seq<Byte>)
    requires raw != [] && at + |raw| <= mem.Length && raw[|raw| - 1] == LF
    requires forall k :: at <= k < at + |raw| ==> mem[k] == raw[k - at]
    ensures var p := at + |raw| - 1;
            LineText(raw) == if p > at && mem[p - 1] == CR then mem[at..p - 1] else mem[at..p]
  {
    assert forall k :: 0 <= k < |raw| ==> mem[at + k] == raw[k];
  }

  /** What one line takes from the body: up to and with its LF, or a whole buffer without any. */
  predicate RawLine(raw: seq<Byte>, bufsize: nat) {
    0 < |raw| <= bufsize && LF !in raw[..|raw| - 1] && (raw[|raw| - 1] == LF || |raw| == bufsize)
  }

  lemma FirstLineIsDetermined(x: seq<Byte>, xs: seq<Byte>, y: seq<Byte>, ys: seq<Byte>, bufsize: nat)
    requires RawLine(x, bufsize) && RawLine(y, bufsize) && x + xs == y + ys && |x| <= |y|
    ensures x == y && xs == ys
  {
    var both := x + xs;
    assert both[..|x|] == x && both[..|y|] == y && both[|x|..] == xs && both[|y|..] == ys;
    assert x[|x| - 1] == both[|x| - 1] == y[|x| - 1];
    NoneInside(y, bufsize);
  }

  lemma NoneInside(y: seq<Byte>, bufsize: nat)
    requires RawLine(y, bufsize)
    ensures forall n :: 0 <= n < |y| - 1 ==> y[n] != LF
  {
    assert forall n :: 0 <= n < |y| - 1 ==> y[n] == y[..|y| - 1][n];
  }

  lemma {:induction false} JoinedFront(raws: seq<seq<Byte>>)
    requires raws != []
    ensures Joined(raws) == raws[0] + Joined(raws[1..])
  {
    var n := |raws| - 1;
    if n > 0 {
      JoinedFront(raws[..n]);
      assert raws[..n][1..] == raws[1..][..n - 1];
      Regroup(raws[0], Joined(raws[1..][..n - 1]), raws[n]);
    }
  }

  /** A raw line among bytes that divide into raw lines, up to a rest that holds none, is one of those. */
  lemma {:induction false} LineIsConsumed(
      raws: seq<seq<Byte>>, tail: seq<Byte>, before: seq<seq<Byte>>, line: seq<Byte>, rest: seq<Byte>, bufsize: nat)
    requires forall i :: 0 <= i < |raws| ==> RawLine(raws[i], bufsize)
    requires forall i :: 0 <= i < |before| ==> RawLine(before[i], bufsize)
    requires RawLine(line, bufsize) && LF !in tail && |tail| < bufsize
    requires Joined(raws) + tail == Joined(before) + (line + rest)
    ensures line in raws
  {
    var x := if before == [] then line else before[0];
    var xs := if before == [] then rest else Joined(before[1..]) + (line + rest);
    if before != [] {
      JoinedFront(before);
      Regroup(before[0], Joined(before[1..]), line + rest);
    } else {
      assert [] + (line + rest) == line + rest;
    }
    if raws == [] {
      assert [] + tail == tail;
      TailHasNoLine(x, xs, tail, bufsize);
    } else {
      JoinedFront(raws);
      Regroup(raws[0], Joined(raws[1..]), tail);
      SameFirstLine(x, xs, raws[0], Joined(raws[1..]) + tail, bufsize);
      if before != [] {
        LineIsConsumed(raws[1..], tail, before[1..], line, rest, bufsize);
        assert line in raws[1..];
      }
    }
  }

  lemma SameFirstLine(x: seq<Byte>, xs: seq<Byte>, y: seq<Byte>, ys: seq<Byte>, bufsize: nat)
    requires RawLine(x, bufsize) && RawLine(y, bufsize) && x + xs == y + ys
    ensures x == y && xs == ys
  {
    if |x| <= |y| {
      FirstLineIsDetermined(x, xs, y, ys, bufsize);
    } else {
      FirstLineIsDetermined(y, ys, x, xs, bufsize);
    }
  }

  lemma TailHasNoLine(x: seq<Byte>, xs: seq<Byte>, tail: seq<Byte>, bufsize: nat)
    requires RawLine(x, bufsize) && LF !in tail && |tail| < bufsize
    ensures x + xs != tail
  {
    assert x[|x| - 1] == (x + xs)[|x| - 1];
  }

  /** There is one way only to divide bytes into raw lines. */
  lemma {:induction false} LinesAreDetermined(a: seq<seq<Byte>>, b: seq<seq<Byte>>, bufsize: nat)
    requires forall i :: 0 <= i < |a| ==> RawLine(a[i], bufsize)
    requires forall i :: 0 <= i < |b| ==> RawLine(b[i], bufsize)
    requires Joined(a) == Joined(b)
    ensures a == b
  {
    if a != [] { JoinedFront(a); }
    if b != [] { JoinedFront(b); }
    if a != [] && b != [] {
      SameFirstLine(a[0], Joined(a[1..]), b[0], Joined(b[1..]), bufsize);
      LinesAreDetermined(a[1..], b[1..], bufsize);
    }
  }

  lemma LineEnds(s: seq<Byte>, p: nat, n: nat)
    requires p + n < |s| && LF !in s[p..p + n] && s[p + n] == LF
    ensures var raw := s[p..p + n + 1];
            raw[|raw| - 1] == LF && LF !in raw[..|raw| - 1]
  {
    assert s[p..p + n + 1][..n] == s[p..p + n];
  }

  lemma WholeWindow(raw: seq<Byte>)
    requires raw != [] && LF !in raw
    ensures LineText(raw) == raw && LF !in raw[..|raw| - 1]
  {
    assert raw[|raw| - 1] in raw;
    assert raw == raw[..|raw| - 1] + [raw[|raw| - 1]];
  }

  class MultipartBuffer {
    const bufsize: nat
    const buffer: array<Byte>
    const boundary: seq<Byte>       // "--" and the boundary parameter
    const boundaryNext: seq<Byte>   // LF and `boundary`
    const client: nat -> Offer
    var bufBegin: int               // offset of the window; -1 for a null pointer
    var bytesInBuffer: nat
    var remaining: int              // r->remaining
    var calls: nat                  // calls of ap_get_client_block so far
    var stream: seq<Byte>           // what the client has not handed over yet
    ghost const body: seq<Byte>     // the whole request body
    ghost var pos: nat              // how much of it has been consumed

    ghost predicate Layout()
      reads this
    {
      && buffer.Length == bufsize + 1
      && bufsize == (if |boundary| + 4 < FILLUNIT then FILLUNIT else |boundary| + 4)
      && boundaryNext == [LF] + boundary && NoNul(boundary) && |boundary| >= 2
      && -1 <= bufBegin && (if bufBegin == -1 then bytesInBuffer == 0 else bufBegin + bytesInBuffer <= bufsize)
      && pos + bytesInBuffer <= |body| && stream == body[pos + bytesInBuffer..]
      && (bytesInBuffer == bufsize ==> bufBegin == 0)
    }

    /** The window from its byte `n` on is what comes next in the body. */
    ghost predicate Unread(n: nat)
      requires Layout()
      reads this, buffer
    {
      bufBegin >= 0 ==>
        forall k :: bufBegin + n <= k < bufBegin + bytesInBuffer ==> buffer[k] == body[pos + (k - bufBegin)]
    }

    /**
    Nothing is lost, repeated or overwritten: consumed bytes, window and unread stream are
    three consecutive pieces of the request body, and the window lies inside the buffer.
    */
    ghost predicate Valid()
      reads this, buffer
    {
      Layout() && Unread(0)
    }

    /** The unread bytes in the buffer. */
    ghost function Window(): seq<Byte>
      requires Valid()
      reads this, buffer
    {
      body[pos..pos + bytesInBuffer]
    }

    /** `multipart_buffer_new` */
    constructor (name: seq<Byte>, body: seq<Byte>, length: int, client: nat -> Offer)
      requires NoNul(name)
      ensures Valid() && fresh(buffer) && pos == 0 && bytesInBuffer == 0 && this.body == body && remaining == length
      ensures boundary == [45, 45] + name && boundaryNext == [10, 45, 45] + name
      ensures bufsize == (if |name| + 6 < 8192 then 8192 else |name| + 6)
      ensures this.client == client && calls == 0 && stream == body
    {
      var dashes: seq<Byte> := [45, 45];
      var minsize := |name| + 6;
      if minsize < FILLUNIT { minsize := FILLUNIT; }
      bufsize := minsize;
      buffer := new Byte[minsize + 1];
      boundary := dashes + name;
      boundaryNext := [LF] + (dashes + name);
      this.client := client;
      bufBegin, bytesInBuffer, calls := 0, 0, 0;
      remaining := length;
      stream := body;
      this.body := body;
      pos := 0;
    }

    /** The `memmove` of `fill_buffer`. */
    method MoveToFront()
      requires Valid()
      modifies `bufBegin, buffer
      ensures Valid() && bufBegin == 0
    {
      if bytesInBuffer > 0 && bufBegin != 0 {
        forall i | 0 <= i < bytesInBuffer { buffer[i] := buffer[bufBegin + i]; }
      }
      bufBegin := 0;
    }

    /**
    How much a refill asks for: what the buffer has room for; when no more than that remains,
    what remains less the length of the boundary.
    */
    ghost function Wanted(): int
      reads this
    {
      if bufsize - bytesInBuffer < remaining then bufsize - bytesInBuffer else remaining - |boundary|
    }

    /** How much it gets. */
    ghost function Given(): nat
      reads this
    {
      if Wanted() <= 0 then 0 else Max0(Min(Min(client(calls).bytes, Wanted()), |stream|))
    }

    /** The client hands over all it is asked for and always reports more to come than fits the buffer. */
    ghost predicate Plentiful()
      reads this
    {
      && remaining > bufsize
      && forall k: nat :: client(k).bytes >= bufsize && forall n: nat :: client(k).left(n) > bufsize
    }

    /** The client hands over all it is asked for and reports exactly what is still to come. */
    ghost predicate Honest()
      reads this
    {
      && remaining == |stream|
      && forall k: nat :: client(k).bytes >= bufsize && forall n: nat :: client(k).left(n) == n
    }

    ghost predicate Reports(plentiful: bool, honest: bool)
      reads this
    {
      (plentiful ==> Plentiful()) && (honest ==> Honest())
    }

    /**
    `fill_buffer`: moves the window to the front, asks the client once if there is something to
    ask for, and appends what it gives.
    */
    method FillBuffer() returns (actual: int)
      requires Valid()
      modifies this, buffer
      ensures Valid() && bufBegin == 0 && pos == old(pos)
      ensures bytesInBuffer == old(bytesInBuffer) + old(Given()) && stream == old(stream)[old(Given())..]
      ensures Window() == old(Window()) + old(stream)[..old(Given())]
      ensures if old(Wanted()) > 0
        then calls == old(calls) + 1 && remaining == client(old(calls)).left(|stream|)
             && actual == Min(Min(client(old(calls)).bytes, old(Wanted())), |old(stream)|)
        else calls == old(calls) && remaining == old(remaining) && actual == 0
      ensures old(Plentiful()) ==> Plentiful() && (bytesInBuffer == bufsize || stream == [])
      ensures old(Honest()) ==> Honest() && (bytesInBuffer == bufsize || |stream| <= |boundary|)
      ensures old(Honest()) && |body| - pos <= bufsize ==> |stream| >= Min(|boundary|, |old(stream)|)
    {
      MoveToFront();
      var bytesToRead := bufsize - bytesInBuffer;
      if bytesToRead >= remaining {
        bytesToRead := remaining - |boundary|;
      }
      actual := 0;
      if bytesToRead > 0 {
        actual := ReadMore(bytesToRead);
      }
    }

    /** The request to the client, and the update of the buffer length. */
    method ReadMore(n: nat) returns (actual: int)
      requires Valid() && bufBegin == 0 && n > 0 && bytesInBuffer + n <= bufsize
      modifies `remaining, `calls, `stream, `bytesInBuffer, buffer
      ensures Valid() && actual == Min(Min(client(old(calls)).bytes, n), |old(stream)|)
      ensures calls == old(calls) + 1 && remaining == client(old(calls)).left(|stream|)
      ensures bytesInBuffer == old(bytesInBuffer) + Max0(actual) && stream == old(stream)[Max0(actual)..]
      ensures Window() == old(Window()) + old(stream)[..Max0(actual)]
    {
      actual := GetClientBlock(bytesInBuffer, n);
      if actual > 0 {
        bytesInBuffer := bytesInBuffer + actual;
      }
      WindowGrows(body, pos, old(bytesInBuffer), Max0(actual));
    }

    lemma WindowGrows(s: seq<Byte>, p: nat, n: nat, more: nat)
      requires p + n + more <= |s|
      ensures s[p..p + n + more] == s[p..p + n] + s[p + n..][..more]
    {
    }

    /** `ap_get_client_block`: stores at most `n` bytes of the stream at offset `at`. */
    method GetClientBlock(at: nat, n: nat) returns (actual: int)
      requires at + n <= buffer.Length
      modifies `remaining, `calls, `stream, buffer
      ensures actual == Min(Min(client(old(calls)).bytes, n), |old(stream)|) && calls == old(calls) + 1
      ensures remaining == client(old(calls)).left(|stream|)
      ensures stream == old(stream)[Max0(actual)..]
      ensures forall k :: 0 <= k < at ==> buffer[k] == old(buffer[k])
      ensures forall k :: at <= k < at + Max0(actual) ==> buffer[k] == old(stream)[k - at]
    {
      var offer := client(calls);
      calls := calls + 1;
      actual := Min(Min(offer.bytes, n), |stream|);
      if actual > 0 {
        forall i | 0 <= i < actual { buffer[at + i] := stream[i]; }
        stream := stream[actual..];
      }
      remaining := offer.left(|stream|);
    }

    /**
    `next_line`. It consumes the bytes up to `pos` and leaves the line in the buffer at
    `at`, ended by a NUL written over its line end. Without LF a line comes back only when
    the buffer is completely full.
    */
    method NextLine() returns (line: Option<seq<Byte>>, at: nat)
      requires Valid()
      modifies `bufBegin, `bytesInBuffer, `pos, buffer
      ensures Valid() && stream == old(stream)
      ensures old(pos) <= pos && pos + bytesInBuffer == old(pos) + old(bytesInBuffer)
      ensures line.None? ==> pos == old(pos) && LF !in old(Window()) && bytesInBuffer < bufsize
      ensures line.Some? ==>
                var raw := body[old(pos)..pos];
                && line.value == LineText(raw) && LeftAt(at, line.value)
                && RawLine(raw, bufsize)
    {
      at := 0;
      if bufBegin == -1 {
        return None, 0;
      }
      at := bufBegin;
      var ptr := FindByte(buffer, bufBegin, bufBegin + bytesInBuffer, LF);
      match ptr {
        case Some(p) =>
          LineAhead(p - bufBegin);
          line := TakeLine(p - bufBegin);
        case None =>
          if bytesInBuffer < bufsize {
            InWindow(bytesInBuffer);
            return None, at;
          }
          line := TakeAll();
      }
    }

    /** A string and its terminator stand at offset `at` of the buffer. */
    ghost predicate LeftAt(at: nat, line: seq<Byte>)
      reads buffer
    {
      at + |line| < buffer.Length && buffer[at..at + |line|] == line && buffer[at + |line|] == NUL
    }

    /** What `memchr` found, or did not find, said about the unread bytes. */
    lemma InWindow(n: nat)
      requires Valid() && bufBegin >= 0 && n <= bytesInBuffer
      requires forall i :: bufBegin <= i < bufBegin + n ==> buffer[i] != LF
      ensures LF !in body[pos..pos + n]
      ensures n < bytesInBuffer && buffer[bufBegin + n] == LF ==> body[pos + n] == LF
    {
      var taken := body[pos..pos + n];
      assert forall i :: 0 <= i < n ==> taken[i] == body[pos + i] == buffer[bufBegin + i];
    }

    /** Ends the line at `at` with a NUL over its LF at `p`, or over the CR in front of that. */
    method Terminate(at: nat, p: nat, ghost raw: seq<Byte>) returns (text: seq<Byte>)
      requires at <= p < buffer.Length && |raw| == p - at + 1 && raw[p - at] == LF
      requires forall k :: at <= k <= p ==> buffer[k] == raw[k - at]
      modifies buffer
      ensures text == LineText(raw) && LeftAt(at, text)
      ensures forall k :: p < k < buffer.Length ==> buffer[k] == old(buffer[k])
    {
      LineInBuffer(buffer, at, raw);
      if p > at && buffer[p - 1] == CR {
        text := buffer[at..p - 1];
        buffer[p - 1] := NUL;
      } else {
        text := buffer[at..p];
        buffer[p] := NUL;
      }
    }

    lemma LineAhead(n: nat)
      requires Valid() && bufBegin >= 0 && n < bytesInBuffer && buffer[bufBegin + n] == LF
      requires forall i :: bufBegin <= i < bufBegin + n ==> buffer[i] != LF
      ensures RawLine(body[pos..pos + n + 1], bufsize)
    {
      InWindow(n);
      LineEnds(body, pos, n);
    }

    /** The first `n` bytes of the window are consumed. */
    method Advance(n: nat)
      requires Layout() && bufBegin >= 0 && n <= bytesInBuffer && Unread(n)
      modifies this`bufBegin, this`bytesInBuffer, this`pos
      ensures Valid() && pos == old(pos) + n && bufBegin == old(bufBegin) + n && bytesInBuffer == old(bytesInBuffer) - n
    {
      bufBegin := bufBegin + n;
      bytesInBuffer := bytesInBuffer - n;
      pos := pos + n;
    }

    /** The LF stands at offset `n` of the window. */
    method TakeLine(n: nat) returns (line: Option<seq<Byte>>)
      requires Valid() && bufBegin >= 0 && n < bytesInBuffer && buffer[bufBegin + n] == LF
      requires RawLine(body[pos..pos + n + 1], bufsize)
      modifies `bufBegin, `bytesInBuffer, `pos, buffer
      ensures Valid() && stream == old(stream) && pos == old(pos) + n + 1
      ensures RawLine(body[old(pos)..pos], bufsize)
      ensures bytesInBuffer == old(bytesInBuffer) - (n + 1)
      ensures var at := old(bufBegin);
              line == Some(LineText(body[old(pos)..pos])) && LeftAt(at, line.value)
    {
      var at, p := bufBegin, bufBegin + n;
      var text := Terminate(at, p, body[pos..pos + n + 1]);
      line := Some(text);
      Advance(n + 1);
    }

    /** A full buffer without LF is one partial line. */
    method TakeAll() returns (line: Option<seq<Byte>>)
      requires Valid() && bufBegin >= 0 && bytesInBuffer == bufsize
      requires forall i :: bufBegin <= i < bufBegin + bufsize ==> buffer[i] != LF
      modifies `bufBegin, `bytesInBuffer, `pos, buffer
      ensures Valid() && stream == old(stream) && pos == old(pos) + bufsize && bytesInBuffer == 0
      ensures line == Some(old(Window())) && LeftAt(0, line.value)
      ensures RawLine(old(Window()), bufsize) && LineText(old(Window())) == old(Window()) == body[old(pos)..pos]
    {
      assert buffer[..bufsize] == Window();
      InWindow(bytesInBuffer);
      WholeWindow(Window());
      line := Some(buffer[..bufsize]);
      buffer[bufsize] := NUL;
      bufBegin := -1;
      pos := pos + bytesInBuffer;
      bytesInBuffer := 0;
    }

    /** The unread bytes hold no whole line and leave room for more. */
    ghost predicate NoLine()
      requires Valid()
      reads this, buffer
    {
      LF !in Window() && bytesInBuffer < bufsize
    }

    /**
    `get_line`: a second try after one refill, which is made exactly when the window holds no
    line; NULL comes only after it.
    */
    method GetLine() returns (line: Option<seq<Byte>>)
      requires Valid()
      modifies this, buffer
      ensures Valid() && old(pos) <= pos
      ensures line.None? ==> pos == old(pos) && NoLine() && Window() == old(Window()) + old(stream)[..old(Given())]
      ensures line.Some? ==>
        var raw := body[old(pos)..pos];
        RawLine(raw, bufsize) && line.value == LineText(raw)
      ensures if old(NoLine())
        then calls == old(calls) + Bit(old(Wanted()) > 0) && stream == old(stream)[old(Given())..]
        else calls == old(calls) && stream == old(stream) && line.Some?
      ensures old(Plentiful()) ==> Plentiful() && (line.None? ==> stream == [])
      ensures old(Honest()) ==> Honest() && (line.None? ==> |stream| <= |boundary|)
      ensures old(Honest()) && |body| - old(pos) <= bufsize ==> |stream| >= Min(|boundary|, |old(stream)|)
    {
      var at;
      line, at := NextLine();
      if line.None? {
        line := TryAgain();
      }
    }

    /** The refill and the second try. */
    method TryAgain() returns (line: Option<seq<Byte>>)
      requires Valid() && NoLine()
      modifies this, buffer
      ensures Valid() && old(pos) <= pos
      ensures line.None? ==> pos == old(pos) && NoLine() && Window() == old(Window()) + old(stream)[..old(Given())]
      ensures line.Some? ==>
        var raw := body[old(pos)..pos];
        RawLine(raw, bufsize) && line.value == LineText(raw)
      ensures calls == old(calls) + Bit(old(Wanted()) > 0) && stream == old(stream)[old(Given())..]
      ensures old(Plentiful()) ==> Plentiful() && (line.None? ==> stream == [])
      ensures old(Honest()) ==> Honest() && (line.None? ==> |stream| <= |boundary|)
      ensures old(Honest()) && |body| - old(pos) <= bufsize ==> |stream| >= Min(|boundary|, |old(stream)|)
    {
      var actual := FillBuffer();
      var at;
      line, at := NextLine();
    }

    /** Raw lines none of which is the boundary. */
    ghost predicate OtherLines(raws: seq<seq<Byte>>) {
      forall i :: 0 <= i < |raws| ==> RawLine(raws[i], bufsize) && UpToNul(LineText(raws[i])) != boundary
    }

    ghost predicate IsBoundaryLine(line: seq<Byte>) {
      RawLine(line, bufsize) && UpToNul(LineText(line)) == boundary
    }

    /** One of the raw lines that `s` begins with is the boundary. */
    ghost predicate HasBoundary(s: seq<Byte>) {
      exists before, line, rest :: IsBoundaryIn(s, before, line, rest)
    }

    ghost predicate IsBoundaryIn(s: seq<Byte>, before: seq<seq<Byte>>, line: seq<Byte>, rest: seq<Byte>) {
      && s == Joined(before) + (line + rest) && (forall i :: 0 <= i < |before| ==> RawLine(before[i], bufsize))
      && IsBoundaryLine(line)
    }

    /** What a search that consumed the raw lines `raws` has seen. */
    ghost predicate Searched(found: bool, raws: seq<seq<Byte>>) {
      if found then raws != [] && OtherLines(raws[..|raws| - 1]) && IsBoundaryLine(raws[|raws| - 1])
      else OtherLines(raws)
    }

    /**
    `find_boundary`: consumes lines up to and including the first one that is the boundary, or
    all there are. `raws` are the raw lines consumed; `LinesAreDetermined` leaves no choice of them.
    With a client that gives all it is asked for and has plenty to report it finds a boundary exactly
    when there is one; from one that reports what is left, the last bytes, as many as the boundary
    is long, may never be fetched.
    */
    method FindBoundary() returns (found: bool, ghost raws: seq<seq<Byte>>)
      requires Valid()
      modifies this, buffer
      ensures Valid() && old(pos) <= pos && body[old(pos)..pos] == Joined(raws)
      ensures Searched(found, raws) && (!found ==> NoLine())
      ensures old(Plentiful()) ==> (found <==> HasBoundary(body[old(pos)..]))
      ensures old(Honest()) && HasBoundary(body[old(pos)..|body| - Min(|boundary|, |old(stream)|)]) ==> found
      ensures old(Honest()) && |body| - old(pos) <= bufsize ==>
        (found <==> HasBoundary(body[old(pos)..|body| - Min(|boundary|, |old(stream)|)]))
    {
      found, raws := Search(Plentiful(), Honest());
    }

    /**
    What the outcome of a search from `from` on tells, when `to` bytes at least have come for certain,
    and no more than those if the rest fits the buffer.
    */
    ghost predicate Told(found: bool, from: nat, to: nat, plentiful: bool, honest: bool)
      requires from <= to <= |body|
    {
      && (plentiful ==> (found <==> HasBoundary(body[from..])))
      && (honest && HasBoundary(body[from..to]) ==> found)
      && (honest && |body| - from <= bufsize ==> (found <==> HasBoundary(body[from..to])))
    }

    /** How a search ends: `mid` bytes are consumed as the raw lines `raws`, and `come` have come into the buffer. */
    ghost predicate Ended(found: bool, from: nat, mid: nat, raws: seq<seq<Byte>>, come: nat, to: nat,
                          plentiful: bool, honest: bool) {
      && from <= mid <= come <= |body| && from <= to <= |body| && body[from..mid] == Joined(raws)
      && Searched(found, raws) && (!found ==> LF !in body[mid..come] && come < mid + bufsize)
      && (plentiful && !found ==> come == |body|) && (honest && !found ==> to <= come)
      && (honest && |body| - from <= bufsize ==> mid <= to)
    }

    lemma Verdict(found: bool, from: nat, mid: nat, raws: seq<seq<Byte>>, come: nat, to: nat,
                  plentiful: bool, honest: bool)
      requires Ended(found, from, mid, raws, come, to, plentiful, honest)
      ensures Told(found, from, to, plentiful, honest)
    {
      assert body[from..|body|] == body[from..];
      if found {
        FoundUpTo(from, mid, raws, |body|);
        if mid <= to { FoundUpTo(from, mid, raws, to); }
      } else {
        if come == |body| { NotFoundUpTo(from, mid, raws, come, |body|); }
        if to <= come { NotFoundUpTo(from, mid, raws, come, to); }
      }
    }

    /** The loop of `find_boundary`, and what its outcome tells. */
    method Search(ghost plentiful: bool, ghost honest: bool) returns (found: bool, ghost raws: seq<seq<Byte>>)
      requires Valid() && Reports(plentiful, honest)
      modifies this, buffer
      ensures Valid() && old(pos) <= pos && body[old(pos)..pos] == Joined(raws)
      ensures Searched(found, raws) && (!found ==> NoLine())
      ensures Told(found, old(pos), |body| - Min(|boundary|, |old(stream)|), plentiful, honest)
    {
      ghost var from, to := pos, |body| - Min(|boundary|, |stream|);
      found, raws := ScanToEnd(plentiful, honest);
      Verdict(found, from, pos, raws, Come(), to, plentiful, honest);
    }

    method ScanToEnd(ghost plentiful: bool, ghost honest: bool) returns (found: bool, ghost raws: seq<seq<Byte>>)
      requires Valid() && Reports(plentiful, honest)
      modifies this, buffer
      ensures Valid() && (!found ==> NoLine())
      ensures Ended(found, old(pos), pos, raws, Come(), |body| - Min(|boundary|, |old(stream)|), plentiful, honest)
    {
      found, raws := ScanLines(plentiful, honest);
      StreamIsRest();
    }

    lemma StreamIsRest()
      requires Valid()
      ensures pos <= Come() == |body| - |stream| && Window() == body[pos..Come()]
    {
    }

    method ScanLines(ghost plentiful: bool, ghost honest: bool) returns (found: bool, ghost raws: seq<seq<Byte>>)
      requires Valid() && Reports(plentiful, honest)
      modifies this, buffer
      ensures Scanning(old(pos), raws, |old(stream)|, plentiful, honest)
      ensures Searched(found, raws) && (!found ==> NoLine())
      ensures !found ==> (plentiful ==> stream == []) && (honest ==> |stream| <= |boundary|)
    {
      ghost var from, left := pos, |stream|;
      raws := [];
      found := false;
      while true
        invariant Scanning(from, raws, left, plentiful, honest) && OtherLines(raws)
        decreases |body| - pos
      {
        ghost var raw;
        var line;
        line, raw := NextOf(from, raws, left, plentiful, honest);
        if line.None? { return; }
        assert (raws + [raw])[..|raws|] == raws;
        raws := raws + [raw];
        if UpToNul(line.value) == boundary { return true, raws; }
      }
    }

    /** From `from` on, when `left` bytes had not come yet, the raw lines `raws` have been consumed. */
    ghost predicate Scanning(from: nat, raws: seq<seq<Byte>>, left: nat, plentiful: bool, honest: bool)
      reads this, buffer
    {
      && Valid() && from <= pos && body[from..pos] == Joined(raws) && Reports(plentiful, honest)
      && |stream| <= left && (honest && |body| - from <= bufsize ==> |stream| >= Min(|boundary|, left))
    }

    /** One more line, if there is one. */
    method NextOf(ghost from: nat, ghost raws: seq<seq<Byte>>, ghost left: nat,
                  ghost plentiful: bool, ghost honest: bool)
      returns (line: Option<seq<Byte>>, ghost raw: seq<Byte>)
      requires Scanning(from, raws, left, plentiful, honest)
      modifies this, buffer
      ensures line.None? ==> Scanning(from, raws, left, plentiful, honest) && NoLine()
      ensures line.None? ==> (plentiful ==> stream == []) && (honest ==> |stream| <= |boundary|)
      ensures line.Some? ==> Scanning(from, raws + [raw], left, plentiful, honest) && old(pos) < pos
      ensures line.Some? ==> RawLine(raw, bufsize) && line.value == LineText(raw)
    {
      ghost var mid := pos;
      line := GetLine();
      raw := body[mid..pos];
      OneMoreLine(from, mid, pos, raws);
    }

    lemma OneMoreLine(from: nat, mid: nat, to: nat, raws: seq<seq<Byte>>)
      requires from <= mid <= to <= |body| && body[from..mid] == Joined(raws)
      ensures body[from..to] == Joined(raws + [body[mid..to]])
    {
      JoinOne(body, from, mid, to);
      assert (raws + [body[mid..to]])[..|raws|] == raws;
    }

    lemma FoundUpTo(from: nat, mid: nat, raws: seq<seq<Byte>>, to: nat)
      requires from <= mid <= to <= |body| && body[from..mid] == Joined(raws) && Searched(true, raws)
      ensures HasBoundary(body[from..to])
    {
      JoinOne(body, from, mid, to);
      FoundIsThere(raws, body[mid..to], body[from..to]);
    }

    lemma NotFoundUpTo(from: nat, mid: nat, raws: seq<seq<Byte>>, come: nat, to: nat)
      requires from <= mid <= come <= |body| && from <= to <= come && body[from..mid] == Joined(raws)
      requires Searched(false, raws) && LF !in body[mid..come] && come < mid + bufsize
      ensures !HasBoundary(body[from..to])
    {
      JoinOne(body, from, mid, come);
      JoinOne(body, from, to, come);
      NotFoundIsNotThere(raws, body[mid..come], body[from..to], body[to..come]);
    }

    /** A boundary line found is a boundary line of what was searched. */
    lemma FoundIsThere(raws: seq<seq<Byte>>, rest: seq<Byte>, s: seq<Byte>)
      requires Searched(true, raws) && s == Joined(raws) + rest
      ensures HasBoundary(s)
    {
      var n := |raws| - 1;
      Regroup(Joined(raws[..n]), raws[n], rest);
      assert IsBoundaryIn(s, raws[..n], raws[n], rest);
    }

    /** Where no line is left there was no boundary line in what has come. */
    lemma NotFoundIsNotThere(raws: seq<seq<Byte>>, tail: seq<Byte>, s: seq<Byte>, more: seq<Byte>)
      requires OtherLines(raws) && LF !in tail && |tail| < bufsize && s + more == Joined(raws) + tail
      ensures !HasBoundary(s)
    {
      forall before, line, rest | IsBoundaryIn(s, before, line, rest) ensures line in raws {
        Regroup(Joined(before), line + rest, more);
        Regroup(line, rest, more);
        LineIsConsumed(raws, tail, before, line, rest + more, bufsize);
      }
    }

    /**
    `multipart_buffer_read`. `window` is the window after the refill; `stop` is where the
    search finds the delimiter: at its first complete occurrence if there is one, otherwise
    only where the comparison runs over the end of the window.
    */
    method Read(bytes: nat) returns (out: seq<Byte>, ghost window: seq<Byte>, ghost stop: Option<nat>)
      requires Valid() && bytes >= 1
      modifies this, buffer
      ensures Valid() && old(Window()) <= window <= body[old(pos)..] && |window| <= bufsize
      ensures stop.Some? ==> stop.value < |window|
      ensures out == window[..CutAt(window, stop, bytes)]
      ensures pos == old(pos) + |out| && out == body[old(pos)..pos] && pos + bytesInBuffer == old(pos) + |window|
      ensures forall i :: FirstIn(boundaryNext, window, i) ==> stop == Some(i)
      ensures stop.Some? && !OccursAt(boundaryNext, window, stop.value) ==> stop.value + |boundaryNext| > |window|
      ensures stop.None? ==> out == window[..if |window| < bytes then |window| else bytes - 1]
      ensures LF !in window ==> stop.None?
      ensures window == old(Window()) + old(stream)[..if bytes > old(bytesInBuffer) then old(Given()) else 0]
      ensures old(Plentiful()) ==> Plentiful() && (window == [] ==> stream == [])
      ensures old(Honest()) ==> Honest() && (window == [] ==> |stream| <= |boundary|)
    {
      Refill(bytes);
      window := Window();
      var bound := FindDelimiter();
      stop := bound;
      out := ReadUpTo(bound, bytes);
    }

    /** The refill of `multipart_buffer_read`. */
    method Refill(bytes: nat)
      requires Valid() && bytes >= 1
      modifies this, buffer
      ensures Valid() && pos == old(pos) && old(Window()) <= Window() && bufBegin >= 0
      ensures Window() == old(Window()) + old(stream)[..if bytes > old(bytesInBuffer) then old(Given()) else 0]
      ensures old(Plentiful()) ==> Plentiful() && (Window() == [] ==> stream == [])
      ensures old(Honest()) ==> Honest() && (Window() == [] ==> |stream| <= |boundary|)
    {
      if bytes > bytesInBuffer {
        var actual := FillBuffer();
      }
    }

    /** The chunk in front of the delimiter, less one CR, and shorter than the caller's buffer. */
    method ReadUpTo(bound: Option<nat>, bytes: nat) returns (out: seq<Byte>)
      requires Valid() && bufBegin >= 0 && bytes >= 1 && (bound.Some? ==> bound.value < bytesInBuffer)
      modifies `bufBegin, `bytesInBuffer, `pos
      ensures Valid() && out == old(Window())[..CutAt(old(Window()), bound, bytes)]
      ensures pos == old(pos) + |out| && pos + bytesInBuffer == old(pos) + old(bytesInBuffer)
    {
      var max := if bound.Some? then bound.value else bytesInBuffer;
      var len := Min(max, bytes - 1);
      if len > 0 {
        if bound.Some? && buffer[bufBegin + len - 1] == CR {
          len := len - 1;
        }
        out := Take(len);
      } else {
        out := [];
      }
    }

    /**
    `multipart_buffer_read_body`. `raw` is all it consumes; `out` is what its string
    functions keep of that, chunk by chunk; `first` is the window after the first refill.
    When the complete delimiter lies in that window, whether it was there before or has only
    come with the refill, the body is exactly what stands before its first occurrence, less
    one CR; that CR, if any, and the delimiter are the next unread bytes, still in the window.
    A body without NUL is returned as it was consumed, and one without LF is consumed to its end,
    over any number of windows, as far as the client reports more to come than the boundary is long.
    */
    method ReadBody() returns (out: seq<Byte>, ghost raw: seq<Byte>, ghost first: seq<Byte>)
      requires Valid()
      modifies this, buffer
      ensures Valid() && old(pos) <= pos && raw == body[old(pos)..pos] && old(Window()) <= first
      ensures NoNul(raw) ==> out == raw
      ensures var b := Find(boundaryNext, first);
        b.Some? ==>
          raw == BodyBefore(first, b.value) && out == UpToNul(raw) && pos + bytesInBuffer >= old(pos) + |first|
      ensures forall i :: FirstIn(boundaryNext, old(Window()), i) ==> Find(boundaryNext, first) == Some(i)
      ensures LF !in body[old(pos)..] && old(Plentiful()) ==> raw == body[old(pos)..]
      ensures LF !in body[old(pos)..] && old(Honest()) ==> |body| - pos <= |boundary|
    {
      ghost var from, w := pos, Window();
      ghost var plentiful, honest := Plentiful(), Honest();
      var buf;
      buf, first := FirstChunk(plentiful, honest);
      PrefixFinds(boundaryNext, w, first);
      out, raw := [], [];
      while buf != []
        invariant Valid() && from + |first| <= Come() && Gathered(from, first, raw, buf, out, pos)
        invariant Reports(plentiful, honest) && (LF !in body[from..] && buf == [] ==> Exhausted(plentiful, honest))
        decreases |body| - pos + |buf|
      {
        ghost var had, part, said, mid := raw, buf, out, pos;
        raw := raw + buf;
        out := out + UpToNul(buf);
        buf := NextChunk(from, first, raw, plentiful, honest);
        OneMoreChunk(from, first, had, part, said, buf, mid, pos);
      }
      assert raw + [] == raw;
    }

    /** `raw` has been appended and `buf` read, so that `to` bytes of the body are consumed. */
    ghost predicate Gathered(from: nat, first: seq<Byte>, raw: seq<Byte>, buf: seq<Byte>, out: seq<Byte>, to: nat) {
      && from <= to <= |body| && raw + buf == body[from..to] && (NoNul(raw) ==> out == raw)
      && var b := Find(boundaryNext, first);
         b.Some? && b.value <= |first| ==> BodySoFar(BodyBefore(first, b.value), raw, buf, out)
    }

    lemma OneMoreChunk(from: nat, first: seq<Byte>, raw: seq<Byte>, buf: seq<Byte>, out: seq<Byte>,
                       next: seq<Byte>, mid: nat, to: nat)
      requires Gathered(from, first, raw, buf, out, mid) && buf != [] && mid <= to <= |body| && next == body[mid..to]
      requires var b := Find(boundaryNext, first);
        b.Some? && b.value <= |first| && raw + buf == BodyBefore(first, b.value) ==> next == []
      ensures Gathered(from, first, raw + buf, next, out + UpToNul(buf), to)
    {
      ChunkWithoutNul(raw, buf);
      JoinOne(body, from, mid, to);
      assert raw == [] ==> raw + buf == buf && out + UpToNul(buf) == UpToNul(buf);
    }

    /** The window is empty and the client has no more, or reports too little to be asked for it. */
    ghost predicate Exhausted(plentiful: bool, honest: bool)
      reads this
    {
      bytesInBuffer == 0 && (plentiful ==> stream == []) && (honest ==> |stream| <= |boundary|)
    }

    /** How much of the body has come into the buffer so far. */
    ghost function Come(): nat
      reads this
    {
      pos + bytesInBuffer
    }

    /** One read, and what it says about the client. */
    method ReadChunk(ghost plentiful: bool, ghost honest: bool)
      returns (buf: seq<Byte>, ghost window: seq<Byte>, ghost stop: Option<nat>)
      requires Valid() && Reports(plentiful, honest)
      modifies this, buffer
      ensures Valid() && Reports(plentiful, honest)
      ensures old(Window()) <= window <= body[old(pos)..] && |window| <= bufsize
      ensures stop.Some? ==> stop.value <= |window|
      ensures pos == old(pos) + |buf| && buf == window[..CutAt(window, stop, FILLUNIT)] == body[old(pos)..pos]
      ensures Come() == old(pos) + |window|
      ensures forall i :: FirstIn(boundaryNext, window, i) ==> stop == Some(i)
      ensures LF !in body[old(pos)..] && buf == [] ==> Exhausted(plentiful, honest)
    {
      buf, window, stop := Read(FILLUNIT);
      NotInPrefix(LF, window, body[old(pos)..]);
    }

    /** The first read of a body. */
    method FirstChunk(ghost plentiful: bool, ghost honest: bool) returns (buf: seq<Byte>, ghost first: seq<Byte>)
      requires Valid() && Reports(plentiful, honest)
      modifies this, buffer
      ensures Valid() && Reports(plentiful, honest)
      ensures old(Window()) <= first && Come() == old(pos) + |first| && |first| <= bufsize && first <= body[old(pos)..]
      ensures Gathered(old(pos), first, [], buf, [], pos)
      ensures LF !in body[old(pos)..] && buf == [] ==> Exhausted(plentiful, honest)
    {
      ghost var from, stop := pos, None;
      buf, first, stop := ReadChunk(plentiful, honest);
      ghost var b := Find(boundaryNext, first);
      if b.Some? {
        ChunkBeforeDelimiter(body, from, from, first, first, boundaryNext, b.value, stop);
      }
      assert [] + buf == buf;
    }

    /** A further read, after which `raw` has been consumed from `from` on: behind the body it finds nothing. */
    method NextChunk(ghost from: nat, ghost first: seq<Byte>, ghost raw: seq<Byte>,
                     ghost plentiful: bool, ghost honest: bool) returns (buf: seq<Byte>)
      requires Valid() && from <= pos && raw == body[from..pos] && Reports(plentiful, honest)
      requires from <= |body| && first <= body[from..] && |first| <= bufsize && Come() >= from + |first|
      modifies this, buffer
      ensures Valid() && Reports(plentiful, honest) && Come() >= from + |first|
      ensures pos == old(pos) + |buf| && buf == body[old(pos)..pos]
      ensures var b := Find(boundaryNext, first); b.Some? && raw == BodyBefore(first, b.value) ==> buf == []
      ensures LF !in body[from..] && buf == [] ==> Exhausted(plentiful, honest)
    {
      ghost var mid, window, stop := pos, [], None;
      NotInRest(LF, body, from, mid);
      buf, window, stop := ReadChunk(plentiful, honest);
      ghost var b := Find(boundaryNext, first);
      if b.Some? && raw == BodyBefore(first, b.value) {
        ChunkBeforeDelimiter(body, from, mid, first, window, boundaryNext, b.value, stop);
      }
    }

    /** The search of `multipart_buffer_read`, as an offset in the window. */
    lemma WindowStands()
      requires Valid() && bufBegin >= 0
      ensures bufBegin + bytesInBuffer < buffer.Length && buffer[..][bufBegin..bufBegin + bytesInBuffer] == Window()
    {
    }

    method FindDelimiter() returns (bound: Option<nat>)
      requires Valid() && bufBegin >= 0
      ensures bound.Some? ==> bound.value < bytesInBuffer
      ensures forall i :: FirstIn(boundaryNext, Window(), i) ==> bound == Some(i)
      ensures bound.Some? && !OccursAt(boundaryNext, Window(), bound.value) ==>
                bound.value + |boundaryNext| > bytesInBuffer
      ensures LF !in Window() ==> bound.None?
    {
      WindowStands();
      var p := MemStr(buffer, bufBegin, bytesInBuffer, boundaryNext, true);
      bound := if p.Some? then Some(p.value - bufBegin) else None;
      StopIsFirst(buffer[..], bufBegin, Window(), boundaryNext, bound);
    }

    method Take(len: nat) returns (out: seq<Byte>)
      requires Valid() && bufBegin >= 0 && len <= bytesInBuffer
      modifies `bufBegin, `bytesInBuffer, `pos
      ensures Valid() && out == old(Window())[..len]
      ensures pos == old(pos) + len && bytesInBuffer == old(bytesInBuffer) - len
    {
      out := buffer[bufBegin..bufBegin + len];
      assert out == Window()[..len];
      Advance(len);
    }
  }

  /**
  A body that is one boundary line is not found to have one, although the client holds nothing
  back: the first request leaves out as many bytes as the boundary is long, and the later ones
  ask for none.
  */
  method LoneBoundaryIsMissed(name: seq<Byte>) returns (b: MultipartBuffer, found: bool)
    requires NoNul(name) && LF !in name
    ensures b.body == [45, 45] + name + [13, 10] && b.HasBoundary(b.body) && !found
  {
    var line := [45, 45] + name + [13, 10];
    b := new MultipartBuffer(name, line, |line|, (k: nat) => Offer(|name| + 8192, (left: nat) => left));
    ghost var raws;
    ghost var fetched := line[0..2];
    NoBoundaryIn(b, fetched);
    BoundaryLine(b, name, line);
    assert |line| - |b.boundary| == 2;
    found, raws := b.FindBoundary();
  }

  lemma NoBoundaryIn(b: MultipartBuffer, s: seq<Byte>)
    requires |s| <= 2 <= |b.boundary| && b.bufsize > 2
    ensures !b.HasBoundary(s)
  {
    forall before, line, rest ensures !b.IsBoundaryIn(s, before, line, rest) {
      UpToNulExactly(LineText(line));
    }
  }

  lemma BoundaryLine(b: MultipartBuffer, name: seq<Byte>, line: seq<Byte>)
    requires NoNul(name) && LF !in name && b.boundary == [45, 45] + name && |name| + 4 <= b.bufsize
    requires line == [45, 45] + name + [13, 10]
    ensures b.HasBoundary(line)
  {
    assert line[..|line| - 2] == b.boundary;
    assert line[..|line| - 1] == b.boundary + [13];
    UpToNulExactly(b.boundary);
    assert Joined([]) + (line + []) == line;
    assert b.IsBoundaryIn(line, [], line, []);
  }

  /** What the search in the buffer says about the window. */
  lemma StopIsFirst(mem: seq<Byte>, begin: nat, window: seq<Byte>, needle: seq<Byte>, stop: Option<nat>)
    requires begin + |window| <= |mem| && mem[begin..begin + |window|] == window && needle != []
    requires stop.Some? ==>
               && Accepts(mem, begin, |window|, needle, true, begin + stop.value)
               && forall i :: i < begin + stop.value ==> !Accepts(mem, begin, |window|, needle, true, i)
    requires stop.None? ==> forall i :: !Accepts(mem, begin, |window|, needle, true, i)
    ensures forall i :: FirstIn(needle, window, i) ==> stop == Some(i)
    ensures stop.Some? && !OccursAt(needle, window, stop.value) ==> stop.value + |needle| > |window|
    ensures needle[0] !in window ==> stop.None?
  {
    if stop.Some? {
      StartsWithFirst(needle, mem, begin + stop.value);
      assert window[stop.value] == mem[begin + stop.value];
    }
    forall i | FirstIn(needle, window, i) ensures stop == Some(i) {
      OccursShifted(mem, begin, window, needle, i);
      assert Accepts(mem, begin, |window|, needle, true, begin + i);
      if stop.Some? && stop.value < i {
        OccursShifted(mem, begin, window, needle, stop.value);
      }
    }
    if stop.Some? && stop.value + |needle| <= |window| {
      OccursShifted(mem, begin, window, needle, stop.value);
    }
  }

  /** What lies completely in a window lies at the same place in a longer one. */
  lemma PrefixFinds(needle: seq<Byte>, w: seq<Byte>, longer: seq<Byte>)
    requires w <= longer
    ensures forall i :: FirstIn(needle, w, i) ==> Find(needle, longer) == Some(i)
  {
    forall i | FirstIn(needle, w, i) ensures FirstIn(needle, longer, i) {
      forall j | 0 <= j <= i ensures OccursAt(needle, longer, j) == OccursAt(needle, w, j) {
        OccursShifted(longer, 0, w, needle, j);
      }
    }
  }

  lemma NotInPrefix(b: Byte, w: seq<Byte>, s: seq<Byte>)
    requires w <= s
    ensures b !in s ==> b !in w
  {
  }

  lemma NotInRest(b: Byte, s: seq<Byte>, i: nat, j: nat)
    requires i <= j <= |s|
    ensures b !in s[i..] ==> b !in s[j..]
  {
    assert s[i..][j - i..] == s[j..];
  }

  lemma SliceOfSlice(s: seq<Byte>, a: nat, b: nat, i: nat, j: nat)
    requires a <= b <= |s| && i <= j <= b - a
    ensures s[a..b][i..j] == s[a + i..a + j]
  {
    var x, y := s[a..b][i..j], s[a + i..a + j];
    assert |x| == |y| && forall k :: 0 <= k < |x| ==> x[k] == y[k];
  }

  lemma OccursShifted(mem: seq<Byte>, begin: nat, window: seq<Byte>, needle: seq<Byte>, i: int)
    requires begin + |window| <= |mem| && mem[begin..begin + |window|] == window
    requires 0 <= i && i + |needle| <= |window|
    ensures OccursAt(needle, window, i) == OccursAt(needle, mem, begin + i)
  {
    SliceOfSlice(mem, begin, begin + |window|, i, i + |needle|);
  }

  /**
  The first delimiter of a window is also the first one of a later window that starts
  before it and reaches at least as far.
  */
  lemma DelimiterShifts(body: seq<Byte>, p: nat, from: nat, w: seq<Byte>, later: seq<Byte>, needle: seq<Byte>, b: int)
    requires p <= from <= p + b && p + |w| <= from + |later| <= |body|
    requires w == body[p..p + |w|] && later == body[from..from + |later|]
    requires FirstIn(needle, w, b)
    ensures FirstIn(needle, later, b - (from - p))
  {
    forall j | 0 <= j <= b - (from - p)
      ensures OccursAt(needle, later, j) == OccursAt(needle, w, j + (from - p))
    {
      OccursShifted(body, p, w, needle, j + (from - p));
      OccursShifted(body, from, later, needle, j);
    }
  }

  /**
  What one read takes when the delimiter lay at `b` in an earlier window: everything before
  it if nothing has been read since, nothing if only its CR is left in front of it.
  */
  lemma ChunkBeforeDelimiter(body: seq<Byte>, p: nat, from: nat, w: seq<Byte>, later: seq<Byte>,
                             needle: seq<Byte>, b: int, stop: Option<nat>)
    requires p <= from && p + |w| <= from + |later| <= |body|
    requires w == body[p..p + |w|] && later == body[from..from + |later|]
    requires FirstIn(needle, w, b) && |needle| >= 3
    requires |w| <= if |needle| + 3 < FILLUNIT then FILLUNIT else |needle| + 3
    requires from == p || from == p + |BodyBefore(w, b)|
    requires forall i :: FirstIn(needle, later, i) ==> stop == Some(i)
    ensures stop.Some? && stop.value <= |later|
    ensures later[..CutAt(later, stop, FILLUNIT)] == if from == p then BodyBefore(w, b) else []
  {
    DelimiterShifts(body, p, from, w, later, needle, b);
    assert FirstIn(needle, later, b - (from - p));
    if from == p {
      assert later[..b] == w[..b] by {
        SliceOfSlice(body, p, p + |w|, 0, b);
        SliceOfSlice(body, from, from + |later|, 0, b);
      }
      if b > 0 { assert later[b - 1] == w[b - 1]; }
    } else if from - p < b {
      assert later[0] == w[from - p] == CR;
    }
  }
}
