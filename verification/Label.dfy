/** The message in front of a sync: one byte, a four-byte length, the text. */
module Label {
  import opened Text

  type Byte = x: int | 0 <= x < 256
  type Bytes = seq<Byte>

  const LABEL_BYTE: Byte := 1
  const ERROR_BYTE: Byte := 2
  const MAX_LEN := 64

  /** `binary.BigEndian.PutUint32`. */
  function BigEndian(n: nat): (r: Bytes)
    ensures |r| == 4
  {
    [n / 0x100_0000 % 256, n / 0x1_0000 % 256, n / 0x100 % 256, n % 256]
  }

  function FromBigEndian(b: Bytes): nat
    requires |b| == 4
  {
    (b[0] as int) * 0x100_0000 + (b[1] as int) * 0x1_0000 + (b[2] as int) * 0x100 + (b[3] as int)
  }

  function Encode(first: Byte, text: Bytes): Bytes { [first] + BigEndian(|text|) + text }

  /** What reading a message off some bytes comes to. */
  datatype Parsed = NeedMore | TooLong | Message(first: Byte, text: Bytes, rest: Bytes)

  function ParseMessage(b: Bytes): Parsed {
    if |b| < 5 then NeedMore
    else
      var n := FromBigEndian(b[1..5]);
      if n > MAX_LEN then TooLong
      else if |b| < 5 + n then NeedMore
      else Message(b[0], b[5..5 + n], b[5 + n..])
  }

  /** How many bytes the pending `io.ReadFull` still asks for: never beyond the message. */
  function Wanted(got: Bytes): nat
    requires ParseMessage(got).NeedMore?
  {
    if |got| < 5 then 5 - |got| else 5 + FromBigEndian(got[1..5]) - |got|
  }

  lemma BigEndianBack(n: nat)
    requires n <= 255
    ensures FromBigEndian(BigEndian(n)) == n
  {
  }

  lemma BigEndianUnique(b: Bytes)
    requires |b| == 4 && FromBigEndian(b) <= 255
    ensures b == BigEndian(FromBigEndian(b))
  {
  }

  /** The bytes on the wire: the first byte, three zeros and the length, the text. */
  lemma WireBytes(first: Byte, text: Bytes)
    requires |text| <= MAX_LEN
    ensures Encode(first, text) == [first, 0, 0, 0, |text|] + text
  {
  }

  /** The documented bytes of the label `app_db`. */
  lemma DocumentedBytes()
    ensures Encode(LABEL_BYTE, [0x61, 0x70, 0x70, 0x5f, 0x64, 0x62]) ==
            [0x01, 0x00, 0x00, 0x00, 0x06, 0x61, 0x70, 0x70, 0x5f, 0x64, 0x62]
  {
    WireBytes(LABEL_BYTE, [0x61, 0x70, 0x70, 0x5f, 0x64, 0x62]);
  }

  /** What any bytes read as, byte by byte: too long is every length above 64. */
  lemma ParsedExactly(b: Bytes)
    ensures |b| < 5 ==> ParseMessage(b) == NeedMore
    ensures |b| >= 5 && (b[1] != 0 || b[2] != 0 || b[3] != 0 || b[4] > 64) ==> ParseMessage(b) == TooLong
    ensures |b| >= 5 && b[1] == b[2] == b[3] == 0 && b[4] <= 64 ==>
              ParseMessage(b) == if |b| < 5 + b[4] then NeedMore else Message(b[0], b[5..5 + b[4]], b[5 + b[4]..])
  {
    if |b| >= 5 { assert b[1..5][0] == b[1] && b[1..5][1] == b[2] && b[1..5][2] == b[3] && b[1..5][3] == b[4]; }
  }

  lemma EncodeShape(first: Byte, text: Bytes, more: Bytes)
    ensures var b := Encode(first, text) + more;
            && |b| == 5 + |text| + |more| && b[0] == first && b[1..5] == BigEndian(|text|)
            && b[5..5 + |text|] == text && b[5 + |text|..] == more
  {
    hide BigEndian;
  }

  /** Reading back a written message takes exactly its bytes and leaves the rest. */
  lemma RoundTrip(first: Byte, text: Bytes, more: Bytes)
    requires |text| <= MAX_LEN
    ensures ParseMessage(Encode(first, text) + more) == Message(first, text, more)
  {
    hide BigEndian, FromBigEndian, Encode;
    EncodeShape(first, text, more);
    BigEndianBack(|text|);
  }

  /** Only a written message reads as one. */
  lemma ParsedIsEncoded(b: Bytes)
    requires ParseMessage(b).Message?
    ensures var m := ParseMessage(b);
            |m.text| <= MAX_LEN && b == Encode(m.first, m.text) + m.rest
  {
    hide BigEndian, FromBigEndian;
    BigEndianUnique(b[1..5]);
    var n := FromBigEndian(b[1..5]);
    assert b == [b[0]] + b[1..5] + b[5..5 + n] + b[5 + n..];
  }

  /** No message is a proper prefix of another: a reader cannot stop early or late. */
  lemma ProperPrefixNeedsMore(first: Byte, text: Bytes, k: nat)
    requires |text| <= MAX_LEN && k < |Encode(first, text)|
    ensures ParseMessage(Encode(first, text)[..k]) == NeedMore
  {
    hide BigEndian, FromBigEndian, Encode;
    EncodeShape(first, text, []);
    var b := Encode(first, text);
    assert b + [] == b;
    BigEndianBack(|text|);
    if k >= 5 { assert b[..k][1..5] == b[1..5]; }
  }

  lemma NeedMoreIsShort(got: Bytes)
    requires ParseMessage(got).NeedMore?
    ensures |got| < 5 + MAX_LEN && 0 < Wanted(got) && |got| + Wanted(got) <= 5 + MAX_LEN
  {
    hide FromBigEndian;
  }

  /** Within what is wanted, reading on never leaves bytes over. */
  lemma NeverReadsPast(got: Bytes, more: Bytes)
    requires ParseMessage(got).NeedMore? && |more| <= Wanted(got)
    ensures ParseMessage(got + more).Message? ==> ParseMessage(got + more).rest == []
  {
    hide FromBigEndian;
    if |got| >= 5 { assert (got + more)[1..5] == got[1..5]; }
  }

  // ---------- the code ----------

  class Writer {
    var out: Bytes

    constructor ()
      ensures out == []
    {
      out := [];
    }

    /** `failAt`: the connection breaks after that many bytes. */
    method Write(p: Bytes, failAt: Option<nat>) returns (ok: bool)
      modifies this
      ensures ok <==> failAt.None? || failAt.value >= |p|
      ensures out == old(out) + if ok then p else p[..failAt.value]
    {
      ok := failAt.None? || failAt.value >= |p|;
      out := out + if ok then p else p[..failAt.value];
    }
  }

  class Reader {
    var rest: Bytes  // what will still arrive before the end of the stream

    constructor (b: Bytes)
      ensures rest == b
    {
      rest := b;
    }

    /** One `Read`: at least one byte, as many as happened to arrive. */
    method Read(buf: array<Byte>, from: nat) returns (n: nat)
      requires from < buf.Length
      modifies this, buf
      ensures n <= buf.Length - from && n <= |old(rest)| && (n == 0 <==> old(rest) == [])
      ensures rest == old(rest)[n..]
      ensures buf[..from] == old(buf[..from]) && buf[from..from + n] == old(rest)[..n]
    {
      if rest == [] { return 0; }
      n :| 1 <= n <= |rest| && n <= buf.Length - from;
      var i := 0;
      while i < n
        invariant 0 <= i <= n && rest == old(rest)
        invariant buf[..from] == old(buf[..from])
        invariant forall j | 0 <= j < i :: buf[from + j] == rest[j]
      {
        buf[from + i] := rest[i];
        i := i + 1;
      }
      rest := rest[n..];
    }

    /** `io.ReadFull`. */
    method ReadFull(buf: array<Byte>) returns (ok: bool)
      modifies this, buf
      ensures ok <==> |old(rest)| >= buf.Length
      ensures ok ==> buf[..] == old(rest)[..buf.Length] && rest == old(rest)[buf.Length..]
      ensures !ok ==> rest == []
    {
      var got := 0;
      while got < buf.Length
        invariant 0 <= got <= buf.Length && got <= |old(rest)|
        invariant rest == old(rest)[got..] && buf[..got] == old(rest)[..got]
      {
        ghost var before := buf[..got];
        var n := Read(buf, got);
        if n == 0 { return false; }
        assert buf[..got + n] == buf[..got] + buf[got..got + n];
        assert old(rest)[..got + n] == old(rest)[..got] + old(rest)[got..][..n];
        got := got + n;
      }
      assert buf[..] == buf[..got];
      return true;
    }
  }

  datatype WriteResult = Written | RefusedTooLong | Broken

  /** `Write`: nothing at all when the text is too long, else the header filled in place
      and the text. */
  method Write(w: Writer, first: Byte, text: Bytes, failHeader: Option<nat>,
               failText: Option<nat>) returns (r: WriteResult)
    modifies w
    ensures r.RefusedTooLong? <==> |text| > MAX_LEN
    ensures r.RefusedTooLong? ==> w.out == old(w.out)
    ensures r.Written? ==> w.out == old(w.out) + Encode(first, text)
    ensures r.Broken? ==> old(w.out) <= w.out && w.out < old(w.out) + Encode(first, text)
    ensures failHeader.None? && failText.None? ==> !r.Broken?
  {
    if |text| > MAX_LEN { return RefusedTooLong; }
    var hdr := new Byte[5];
    hdr[0] := first;
    var n := |text|;
    hdr[1], hdr[2], hdr[3], hdr[4] := n / 0x100_0000 % 256, n / 0x1_0000 % 256, n / 0x100 % 256, n % 256;
    assert hdr[..] == [first] + BigEndian(|text|);
    var ok := w.Write(hdr[..], failHeader);
    if !ok { return Broken; }
    ok := w.Write(text, failText);
    if !ok { return Broken; }
    return Written;
  }

  /** `Read`: however the bytes arrive, the outcome is the parse of the stream, and the
      bytes after the message are still unread. */
  method Read(r: Reader) returns (m: Option<(Byte, Bytes)>)
    modifies r
    ensures match ParseMessage(old(r.rest))
            case Message(first, text, more) => m == Some((first, text)) && r.rest == more
            case TooLong => m == None && r.rest == old(r.rest)[5..]
            case NeedMore => m == None && r.rest == []
  {
    hide FromBigEndian;
    ghost var all := r.rest;
    var hdr := new Byte[5];
    var ok := r.ReadFull(hdr);
    if !ok { return None; }
    assert hdr[..][1..5] == all[1..5];
    var n := FromBigEndian(hdr[..][1..5]);
    if n > MAX_LEN { return None; }
    var buf := new Byte[n];
    ok := r.ReadFull(buf);
    if !ok { return None; }
    assert all[5..][..n] == all[5..5 + n];
    assert all[5..][n..] == all[5 + n..];
    return Some((hdr[0], buf[..]));
  }
}
