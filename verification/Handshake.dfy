/**
 The upstream handshake and its handoff to the copy loop. A connection delivers its stream in
 chunks of any size, with errors at any point.
 */
module Handshake {

  type Byte = x: int | 0 <= x < 256

  const LF: Byte := 10
  const BUFFER := 256
  const VERSION_PREFIX: seq<Byte> := [64, 82, 83, 89, 78, 67, 68, 58]

  /** What one read of the connection may return: at most `size` bytes, and an error or not. */
  datatype Chunk = Chunk(size: nat, err: bool)

  // ---------------------------------------------------------------- lines

  /** The index of the first newline, or the length. */
  function FirstLf(s: seq<Byte>): (i: nat)
    ensures i <= |s| && (i < |s| ==> s[i] == LF)
    ensures forall j :: 0 <= j < |s| && s[j] == LF ==> i <= j
  {
    if s == [] || s[0] == LF then 0 else 1 + FirstLf(s[1..])
  }

  /** What follows the first line; nothing while the line is incomplete. */
  function AfterFirstLine(s: seq<Byte>): seq<Byte> {
    if FirstLf(s) < |s| then s[FirstLf(s) + 1..] else []
  }

  /** A prefix has the same first newline, if it reaches that far. */
  lemma FirstLfOfPrefix(s: seq<Byte>, n: nat)
    requires n <= |s|
    ensures FirstLf(s[..n]) == if FirstLf(s) < n then FirstLf(s) else n
  {
    var i := FirstLf(s);
    if i < n { assert s[..n][i] == LF; }
  }

  // ---------------------------------------------------------------- connections

  /** Put `data` into the buffer at index `n`. */
  method Fill(buf: array<Byte>, n: nat, data: seq<Byte>)
    requires n + |data| <= buf.Length
    modifies buf
    ensures buf[..n + |data|] == old(buf[..n]) + data
  {
    for i := 0 to |data|
      invariant forall j :: 0 <= j < n ==> buf[j] == old(buf[j])
      invariant forall j :: n <= j < n + i ==> buf[j] == data[j - n]
    {
      buf[n + i] := data[i];
    }
  }

  /** The receiving side of a connection that will carry `stream`. */
  class Source {
    const stream: seq<Byte>
    var pos: nat
    var script: seq<Chunk>

    ghost predicate Valid()
      reads this
    {
      pos <= |stream|
    }

    constructor (stream: seq<Byte>, script: seq<Chunk>)
      ensures Valid() && this.stream == stream && pos == 0 && this.script == script
    {
      this.stream, this.pos, this.script := stream, 0, script;
    }

    /** Read into the buffer from index `n`; once the script is over every read fails. */
    method Read(buf: array<Byte>, n: nat) returns (nr: nat, err: bool)
      requires Valid() && n <= buf.Length
      modifies this, buf
      ensures Valid() && pos == old(pos) + nr && n + nr <= buf.Length
      ensures buf[..n + nr] == old(buf[..n]) + stream[old(pos)..pos]
      ensures err || |script| < |old(script)|
    {
      if script == [] { return 0, true; }
      var chunk := script[0];
      script := script[1..];
      nr := chunk.size;
      if nr > buf.Length - n { nr := buf.Length - n; }
      if nr > |stream| - pos { nr := |stream| - pos; }
      Fill(buf, n, stream[pos..pos + nr]);
      pos := pos + nr;
      return nr, chunk.err;
    }
  }

  /** The sending side: what the client has been sent. */
  class Sink {
    var received: seq<Byte>

    constructor ()
      ensures received == []
    {
      received := [];
    }

    method Write(data: seq<Byte>)
      modifies this
      ensures received == old(received) + data
    {
      received := received + data;
    }
  }

  // ---------------------------------------------------------------- the program

  /** Reads until the last byte read is a newline or the buffer is full. The buffer holds
      exactly what was taken from the connection, and an error is reported only when neither
      end was reached. */
  method ReadLine(conn: Source, buf: array<Byte>) returns (n: nat, err: bool)
    requires conn.Valid()
    modifies conn, buf
    ensures conn.Valid() && n <= buf.Length && conn.pos == old(conn.pos) + n
    ensures buf[..n] == conn.stream[old(conn.pos)..conn.pos]
    ensures !err <==> n == buf.Length || (n > 0 && buf[n - 1] == LF)
  {
    n := 0;
    while true
      invariant conn.Valid() && n <= buf.Length && conn.pos == old(conn.pos) + n
      invariant buf[..n] == conn.stream[old(conn.pos)..conn.pos]
      decreases |conn.script|
    {
      ghost var before := conn.pos;
      var nr;
      nr, err := conn.Read(buf, n);
      assert conn.stream[old(conn.pos)..conn.pos] == conn.stream[old(conn.pos)..before] + conn.stream[before..conn.pos];
      n := n + nr;
      if n > 0 && buf[n - 1] == LF { return n, false; }
      if n == buf.Length { return n, false; }
      if err { return; }
    }
  }

  /** Index of the first newline, or -1. */
  method IndexLf(data: seq<Byte>) returns (idx: int)
    ensures idx == if FirstLf(data) < |data| then FirstLf(data) else -1
  {
    for i := 0 to |data|
      invariant FirstLf(data) >= i
    {
      if data[i] == LF { return i; }
    }
    return -1;
  }

  /** The copy loop: everything taken from the connection is passed on, in order. */
  method Copy(conn: Source, client: Sink, buf: array<Byte>)
    requires conn.Valid()
    modifies conn, client, buf
    ensures conn.Valid() && old(conn.pos) <= conn.pos
    ensures client.received == old(client.received) + conn.stream[old(conn.pos)..conn.pos]
  {
    var err := false;
    while !err
      invariant conn.Valid() && old(conn.pos) <= conn.pos
      invariant client.received == old(client.received) + conn.stream[old(conn.pos)..conn.pos]
      decreases !err, |conn.script|
    {
      ghost var before := conn.pos;
      var nr;
      nr, err := conn.Read(buf, 0);
      assert conn.stream[old(conn.pos)..conn.pos] == conn.stream[old(conn.pos)..before] + conn.stream[before..conn.pos];
      client.Write(buf[..nr]);
    }
  }

  /** What of `s` is passed on when its first `n` bytes were taken for the handshake: all but
      the first line when its newline was among them, otherwise all of it. */
  function Spliced(s: seq<Byte>, n: nat): seq<Byte> {
    if FirstLf(s) < n && FirstLf(s) < |s| then s[FirstLf(s) + 1..] else s
  }

  lemma Cut(s: seq<Byte>, i: nat, n: nat)
    requires i <= n <= |s|
    ensures s[..n][i..] + s[n..] == s[i..]
  {
  }

  /** Nothing is lost, repeated or reordered at the handoff: what was buffered and what is
      copied later join up. */
  lemma SpliceJoins(s: seq<Byte>, n: nat)
    requires n <= |s|
    ensures Spliced(s[..n], n) + s[n..] == Spliced(s, n)
  {
    FirstLfOfPrefix(s, n);
    Cut(s, if FirstLf(s) < n then FirstLf(s) + 1 else 0, n);
  }

  lemma Appended(a: seq<Byte>, b: seq<Byte>, c: seq<Byte>, d: seq<Byte>)
    requires b + c == d
    ensures (a + b) + c == a + d
  {
  }

  /** The splice is what follows the first line exactly when its newline was taken. */
  lemma SpliceIsExact(s: seq<Byte>, n: nat)
    requires 0 < n <= |s|
    ensures Spliced(s, n) == AfterFirstLine(s) <==> FirstLf(s) < n
  {
  }

  /** A handshake read that ended at a newline or a full buffer has the first newline exactly
      when the buffer could hold it. */
  lemma TakenIffFits(s: seq<Byte>, n: nat)
    requires 0 < n <= |s| && n <= BUFFER && (n == BUFFER || s[n - 1] == LF)
    ensures FirstLf(s) < n <==> FirstLf(s) < BUFFER
  {
  }

  predicate IsVersion(data: seq<Byte>) {
    VERSION_PREFIX <= data
  }

  /** A version line starts with the text "@RSYNCD:". */
  lemma VersionText(data: seq<Byte>)
    ensures IsVersion(data) <==> |data| >= 8 && forall i :: 0 <= i < 8 ==> data[i] == "@RSYNCD:"[i] as int
  {
    assert forall i :: 0 <= i < 8 ==> VERSION_PREFIX[i] == "@RSYNCD:"[i] as int;
    if |data| >= 8 && forall i :: 0 <= i < 8 ==> data[i] == "@RSYNCD:"[i] as int {
      assert data[..8] == VERSION_PREFIX;
    }
  }

  method SendRest(client: Sink, data: seq<Byte>)
    modifies client
    ensures client.received == old(client.received) + Spliced(data, |data|)
  {
    var idx := IndexLf(data);
    if idx + 1 < |data| {
      client.Write(data[idx + 1..]);
    }
  }

  /** The handshake with an upstream: read its version line and pass on the rest of what was
      read. */
  method ReadVersion(conn: Source, client: Sink, buf: array<Byte>) returns (ok: bool, n: nat)
    requires conn.Valid() && conn.pos == 0 && buf.Length == BUFFER
    modifies conn, client, buf
    ensures conn.Valid() && conn.pos == n <= BUFFER
    ensures !ok ==> client.received == old(client.received)
    ensures ok ==> client.received == old(client.received) + Spliced(conn.stream[..n], n)
    ensures ok <==> IsVersion(conn.stream[..n]) && (n == BUFFER || (n > 0 && conn.stream[n - 1] == LF))
    ensures ok ==> n > 0
  {
    var err;
    n, err := ReadLine(conn, buf);
    var data := buf[..n];
    assert data == conn.stream[..n];
    if err || !IsVersion(data) { return false, n; }
    SendRest(client, data);
    return true, n;
  }

  /** What the client gets of the first `m` bytes of an upstream stream. */
  function Delivered(s: seq<Byte>, m: nat): seq<Byte>
    requires m <= |s|
  {
    if FirstLf(s) < 256 then AfterFirstLine(s[..m]) else s[..m]
  }

  lemma JoinIsDelivered(s: seq<Byte>, n: nat, m: nat)
    requires 0 < n <= m <= |s| && n <= BUFFER && (n == BUFFER || s[n - 1] == LF)
    ensures Spliced(s[..n], n) + s[n..m] == Delivered(s, m)
  {
    var p := s[..m];
    assert p[..n] == s[..n] && p[n..] == s[n..m];
    SpliceJoins(p, n);
    SpliceIsExact(p, n);
    TakenIffFits(s, n);
    FirstLfOfPrefix(s, m);
  }

  lemma HandoffIsExact(s: seq<Byte>, n: nat, m: nat, sent: seq<Byte>, before: seq<Byte>)
    requires 0 < n <= m <= |s| && n <= BUFFER && (n == BUFFER || s[n - 1] == LF)
    requires before == sent + Spliced(s[..n], n)
    ensures before + s[n..m] == sent + Delivered(s, m)
  {
    JoinIsDelivered(s, n, m);
    Appended(sent, Spliced(s[..n], n), s[n..m], Delivered(s, m));
  }

  /** Relaying an upstream from its version line on. When the handshake read succeeds, the
      client is sent exactly what follows the upstream's first newline, as far as the
      connection was read, if that newline is within the buffer; otherwise it is sent the
      version line too. */
  method RelayUpstream(conn: Source, client: Sink, buf: array<Byte>, copyBuf: array<Byte>) returns (ok: bool)
    requires conn.Valid() && conn.pos == 0 && buf.Length == BUFFER
    modifies conn, client, buf, copyBuf
    ensures conn.Valid()
    ensures !ok ==> client.received == old(client.received)
    ensures ok ==> client.received == old(client.received) + Delivered(conn.stream, conn.pos)
  {
    var n;
    ok, n := ReadVersion(conn, client, buf);
    if !ok { return; }
    ghost var before := client.received;
    Copy(conn, client, copyBuf);
    HandoffIsExact(conn.stream, n, conn.pos, old(client.received), before);
  }
}
