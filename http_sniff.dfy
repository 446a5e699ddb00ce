/**
 * The connection sniffer of pkg/grpc/server/http.go: the first 24 octets
 * of an accepted connection decide whether it is served as HTTP/1 (and
 * downgraded) or handed to the HTTP/2 gRPC server, and the octets read are
 * replayed to whichever server gets the connection.
 */
module HttpSniff {
  import opened Wrappers
  import opened GoStrings
  import GoErrors

  newtype byte = b: int | 0 <= b < 256

  /** Go's string(buf): one character per octet. */
  function Text(buf: seq<byte>): (s: string)
    ensures |s| == |buf| && forall i :: 0 <= i < |buf| ==> s[i] as int == buf[i] as int
  {
    seq(|buf|, i requires 0 <= i < |buf| => (buf[i] as int) as char)
  }

  /** Octet sequences and their texts determine each other. */
  lemma TextInjective(a: seq<byte>, b: seq<byte>)
    requires Text(a) == Text(b)
    ensures a == b
  {
    assert |a| == |Text(a)|;
    forall i | 0 <= i < |a|
      ensures a[i] == b[i]
    {
      assert Text(a)[i] == Text(b)[i];
    }
  }

  /** The HTTP/2 client connection preface of section 3.5 of RFC 7540. */
  const Magic: string := "PRI * HTTP/2.0\r\n\r\nSM\r\n\r\n"
  const MagicLen: nat := 24

  /** A TLS record header of a handshake, versions 1.0 to 1.3 (section 5.1 of RFC 8446). */
  predicate IsTlsHandshake(buf: seq<byte>)
  {
    |buf| >= 3 && buf[0] == 0x16 && buf[1] == 0x03 && 0x01 <= buf[2] <= 0x04
  }

  /** The request-line starts taken for HTTP/1; PATCH is only recognised followed by a tab. */
  const H1Prefixes: seq<string> :=
    ["POST /", "GET /", "HEAD /", "PUT /", "DELETE /", "CONNECT /", "OPTIONS /", "TRACE /", "PATCH\t/"]

  /**
   * isH1's decision on a full 24-octet read: the preface and the TLS
   * handshakes are not HTTP/1, and otherwise the connection is HTTP/1
   * iff it starts with one of the request-line prefixes.
   */
  function Classify(buf: seq<byte>): (h1: bool)
    requires |buf| == MagicLen
    ensures Text(buf) == Magic ==> !h1
    ensures IsTlsHandshake(buf) ==> !h1
    ensures h1 <==> exists k :: 0 <= k < |H1Prefixes| && HasPrefix(Text(buf), H1Prefixes[k])
  {
    var s := Text(buf);
    var tls := buf[0] == 0x16 && buf[1] == 0x03;
    if s == Magic then
      assert forall k :: 0 <= k < |H1Prefixes| ==> s[0] != H1Prefixes[k][0] || s[1] != H1Prefixes[k][1];
      false
    else if tls && buf[2] == 0x01 then false
    else if tls && buf[2] == 0x02 then false
    else if tls && buf[2] == 0x03 then false
    else if tls && buf[2] == 0x04 then false
    else
      assert tls ==> forall k :: 0 <= k < |H1Prefixes| ==> s[0] != H1Prefixes[k][0];
      if HasPrefix(s, H1Prefixes[0]) then true
      else if HasPrefix(s, H1Prefixes[1]) then true
      else if HasPrefix(s, H1Prefixes[2]) then true
      else if HasPrefix(s, H1Prefixes[3]) then true
      else if HasPrefix(s, H1Prefixes[4]) then true
      else if HasPrefix(s, H1Prefixes[5]) then true
      else if HasPrefix(s, H1Prefixes[6]) then true
      else if HasPrefix(s, H1Prefixes[7]) then true
      else if HasPrefix(s, H1Prefixes[8]) then true
      else false
  }

  /** A PATCH request written with the usual space is not recognised as HTTP/1. */
  lemma PatchWithSpaceIsNotH1(buf: seq<byte>)
    requires |buf| == MagicLen && HasPrefix(Text(buf), "PATCH /")
    ensures !Classify(buf)
  {
    var s := Text(buf);
    assert s[..7] == "PATCH /";
    assert s[0] == 'P' && s[1] == 'A' && s[5] == ' ';
    forall k | 0 <= k < |H1Prefixes|
      ensures !HasPrefix(s, H1Prefixes[k])
    {
      var p := H1Prefixes[k];
      if k == 8 {
        assert p[5] == '\t';
      } else {
        assert s[0] != p[0] || s[1] != p[1];
      }
    }
  }

  /** The same request with a tab after PATCH is HTTP/1. */
  lemma PatchWithTabIsH1(buf: seq<byte>)
    requires |buf| == MagicLen && HasPrefix(Text(buf), "PATCH\t/")
    ensures Classify(buf)
  {
    assert HasPrefix(Text(buf), H1Prefixes[8]);
  }

  /** io.EOF and io.ErrUnexpectedEOF. */
  const Eof: GoErrors.Error := GoErrors.Other("EOF")
  const UnexpectedEof: GoErrors.Error := GoErrors.Other("unexpected EOF")

  /**
   * The accepted connection, as the octets it will still deliver and the
   * error it reports once they are exhausted.
   */
  class Conn {
    var rest: seq<byte>
    const endErr: GoErrors.Error

    constructor (data: seq<byte>, endErr: GoErrors.Error)
      ensures rest == data && this.endErr == endErr
    {
      rest := data;
      this.endErr := endErr;
    }

    /** Read into a buffer of `size` octets: what is left, up to size, or the end error when nothing is left. */
    method Read(size: nat) returns (p: seq<byte>, err: Option<GoErrors.Error>)
      modifies this
      ensures p + rest == old(rest) && |p| <= size
      ensures |old(rest)| > 0 ==> |p| == if size < |old(rest)| then size else |old(rest)|
      ensures err == if size > 0 && |old(rest)| == 0 then Some(endErr) else None
    {
      var n := if size < |rest| then size else |rest|;
      p := rest[..n];
      rest := rest[n..];
      err := if size > 0 && n == 0 then Some(endErr) else None;
    }
  }

  /**
   * wrapConn: the connection behind the octets already read by the
   * sniffer, and the error that read ended with.
   */
  class WrapConn {
    const conn: Conn
    var err: Option<GoErrors.Error>
    var header: seq<byte>

    constructor (conn: Conn, err: Option<GoErrors.Error>, header: seq<byte>)
      ensures this.conn == conn && this.err == err && this.header == header
    {
      this.conn := conn;
      this.err := err;
      this.header := header;
    }

    /** Everything the wrapped connection will still deliver, in order. */
    function Stream(): seq<byte>
      reads this, conn
    {
      header + conn.rest
    }

    /**
     * wrapConn.Read: while buffered octets remain they are delivered first,
     * together with the stored error, which is then cleared so that it is
     * reported at most once; afterwards reads go to the connection.
     */
    method Read(size: nat) returns (p: seq<byte>, rerr: Option<GoErrors.Error>)
      modifies this, conn
      ensures p + Stream() == old(Stream()) && |p| <= size
      ensures old(|header|) != 0 ==>
        && rerr == old(err) && err.None? && conn.rest == old(conn.rest)
        && |p| == if size < old(|header|) then size else old(|header|)
      ensures old(|header|) == 0 ==>
        && err == old(err) && header == []
        && rerr == (if size > 0 && old(|conn.rest|) == 0 then Some(conn.endErr) else None)
    {
      if |header| != 0 {
        var n := if size < |header| then size else |header|;
        p := header[..n];
        header := header[n..];
        rerr := err;
        err := None;
        assert p + header == old(header);
        return;
      }
      p, rerr := conn.Read(size);
    }
  }

  /**
   * io.ReadAtLeast(conn, buf, 24) for a 24-octet buffer: the octets read and
   * the error, which is nil iff all 24 arrived, and ErrUnexpectedEOF for an
   * end of file after some but not all of them.
   */
  function ReadAtLeastErr(avail: seq<byte>, endErr: GoErrors.Error): (e: Option<GoErrors.Error>)
    ensures e.None? <==> |avail| >= MagicLen
    ensures e.Some? && endErr != Eof ==> e == Some(endErr)
    ensures e.Some? && endErr == Eof ==> e == Some(if |avail| == 0 then Eof else UnexpectedEof)
  {
    if |avail| >= MagicLen then None
    else if |avail| > 0 && endErr == Eof then Some(UnexpectedEof)
    else Some(endErr)
  }

  /**
   * isH1: read the first 24 octets, wrap the connection so that they are
   * replayed, and classify.  A short read is never HTTP/1 and its error is
   * returned; nothing the connection delivers is lost by sniffing.
   */
  method IsH1(conn: Conn) returns (wrap: WrapConn, h1: bool, err: Option<GoErrors.Error>)
    modifies conn
    ensures fresh(wrap) && wrap.conn == conn && wrap.Stream() == old(conn.rest)
    ensures err == ReadAtLeastErr(old(conn.rest), conn.endErr) && wrap.err == err
    ensures wrap.header == old(conn.rest)[..if |old(conn.rest)| < MagicLen then |old(conn.rest)| else MagicLen]
    ensures h1 <==> err.None? && Classify(wrap.header)
  {
    var n := if |conn.rest| < MagicLen then |conn.rest| else MagicLen;
    var buf := conn.rest[..n];
    err := ReadAtLeastErr(conn.rest, conn.endErr);
    conn.rest := conn.rest[n..];
    wrap := new WrapConn(conn, err, buf);
    assert wrap.Stream() == old(conn.rest);
    if err.Some? {
      return wrap, false, err;
    }
    h1 := Classify(buf);
  }
}
