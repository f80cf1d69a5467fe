/** WebSocket frames (RFC 6455, sections 5.2 and 5.3) as the remote acceptance script writes and reads them. */
module WebSocket {
  import opened Wrappers
  import opened Bytes

  const OPCODE_TEXT: Byte := 0x1
  const OPCODE_CLOSE: Byte := 0x8
  const OPCODE_PING: Byte := 0x9

  // ----- Frames and their bytes; `b & 0x7F` is `b % 0x80`, and so on -----

  /** How the header gives the length: in seven bits, in two bytes or in eight. */
  datatype Form = Short | Medium | Long

  /** `mask` is empty in a frame that is not masked; `payload` is the payload before masking. */
  datatype Frame = Frame(first: Byte, form: Form, mask: seq<Byte>, payload: seq<Byte>)

  predicate WellFormed(f: Frame) {
    && |f.mask| in [0, 4]
    && match f.form
       case Short => |f.payload| < 126
       case Medium => |f.payload| < 0x1_0000
       case Long => |f.payload| < 0x1_0000_0000_0000_0000
  }

  type LegalFrame = f: Frame | WellFormed(f) witness Frame(0, Short, [], [])

  /** Masking; taking the mask off is the same operation. */
  function Mask(mask: seq<Byte>, payload: seq<Byte>): (r: seq<Byte>)
    requires |mask| in [0, 4]
    ensures |r| == |payload|
  {
    if mask == [] then payload else seq(|payload|, i requires 0 <= i < |payload| => Xor(payload[i], mask[i % 4]))
  }

  lemma MaskTwice(mask: seq<Byte>, payload: seq<Byte>)
    requires |mask| in [0, 4]
    ensures Mask(mask, Mask(mask, payload)) == payload
  {
    if mask != [] {
      forall i | 0 <= i < |payload| ensures Mask(mask, Mask(mask, payload))[i] == payload[i] {
        XorTwice(payload[i], mask[i % 4]);
      }
    }
  }

  function LengthBits(form: Form, size: nat): (bits: nat)
    ensures bits < 128
  {
    match form
    case Short => if size < 126 then size else 0
    case Medium => 126
    case Long => 127
  }

  /** The second byte: the mask bit and the seven bits of the length. */
  function Second(f: Frame): Byte {
    (if f.mask == [] then 0 else 0x80) + LengthBits(f.form, |f.payload|)
  }

  function Extended(f: Frame): seq<Byte> {
    match f.form
    case Short => []
    case Medium => BigEndian(|f.payload|, 2)
    case Long => BigEndian(|f.payload|, 8)
  }

  /** The bytes of a frame. */
  function Wire(f: Frame): seq<Byte>
    requires WellFormed(f)
  {
    [f.first, Second(f)] + Extended(f) + f.mask + Mask(f.mask, f.payload)
  }

  // ----- Reading a frame -----

  predicate Masked(second: Byte) {
    second >= 0x80
  }

  function FormOf(second: Byte): Form {
    if second % 0x80 == 126 then Medium else if second % 0x80 == 127 then Long else Short
  }

  function ExtendedWidth(form: Form): nat {
    match form
    case Short => 0
    case Medium => 2
    case Long => 8
  }

  function SizeOf(second: Byte, extended: seq<Byte>): nat {
    if FormOf(second) == Short then second % 0x80 else Unsigned(extended)
  }

  /** The first frame of a stream and what follows it, if the stream holds a whole frame. */
  function FirstFrame(s: seq<Byte>): (r: Option<(Frame, seq<Byte>)>)
    ensures r.Some? ==> |r.value.1| + 2 <= |s|
  {
    if |s| < 2 then None
    else
      var width := ExtendedWidth(FormOf(s[1]));
      if |s| < 2 + width then None
      else
        var size := SizeOf(s[1], s[2..2 + width]);
        var maskSize := if Masked(s[1]) then 4 else 0;
        var start := 2 + width + maskSize;
        if |s| < start + size then None
        else
          var mask := s[2 + width..start];
          Some((Frame(s[0], FormOf(s[1]), mask, Mask(mask, s[start..start + size])), s[start + size..]))
  }

  lemma HeaderRead(f: Frame)
    requires WellFormed(f)
    ensures FormOf(Second(f)) == f.form && (Masked(Second(f)) <==> f.mask != [])
    ensures |Extended(f)| == ExtendedWidth(f.form) && SizeOf(Second(f), Extended(f)) == |f.payload|
  {
    if f.form != Short {
      PowersUsed();
      UnsignedRoundTrip(|f.payload|, ExtendedWidth(f.form));
    }
  }

  lemma HeaderWritten(second: Byte, extended: seq<Byte>, f: Frame)
    requires f.form == FormOf(second) && (f.mask != [] <==> Masked(second)) && |f.mask| in [0, 4]
    requires |extended| == ExtendedWidth(f.form) && |f.payload| == SizeOf(second, extended)
    ensures WellFormed(f) && Second(f) == second && Extended(f) == extended
  {
    if f.form != Short {
      PowersUsed();
      BigEndianRoundTrip(extended);
    }
  }

  lemma PowersUsed()
    ensures Power256(2) == 0x1_0000 && Power256(8) == 0x1_0000_0000_0000_0000
  {
    assert Power256(2) == 256 * Power256(1);
    assert Power256(4) == 256 * (256 * Power256(2));
    assert Power256(8) == 256 * (256 * (256 * (256 * Power256(4))));
  }

  /** What reading makes of a stream that holds the parts of a frame. */
  lemma ReadParts(s: seq<Byte>, mask: nat, start: nat, end: nat)
    requires 2 <= mask <= start <= end <= |s| && start == mask + if Masked(s[1]) then 4 else 0
    requires mask == 2 + ExtendedWidth(FormOf(s[1])) && end == start + SizeOf(s[1], s[2..mask])
    ensures FirstFrame(s) == Some((Frame(s[0], FormOf(s[1]), s[mask..start], Mask(s[mask..start], s[start..end])),
                                   s[end..]))
  {
    hide Mask, FormOf, SizeOf, Masked, ExtendedWidth;
  }

  /** A frame's bytes read back as that frame, whatever follows them. */
  lemma FrameRoundTrip(f: Frame, rest: seq<Byte>)
    requires WellFormed(f)
    ensures FirstFrame(Wire(f) + rest) == Some((f, rest))
  {
    HeaderRead(f);
    MaskTwice(f.mask, f.payload);
    hide Mask, Second, Extended, FormOf, SizeOf, Masked, FirstFrame, WellFormed, ExtendedWidth;
    var masked, s := Mask(f.mask, f.payload), Wire(f) + rest;
    Joined([f.first, Second(f)], Extended(f), f.mask, masked, rest, s);
    var mask := 2 + |Extended(f)|;
    assert s[0] == f.first && s[1] == Second(f);
    ReadParts(s, mask, mask + |f.mask|, mask + |f.mask| + |masked|);
  }

  lemma Joined(a: seq<Byte>, b: seq<Byte>, c: seq<Byte>, d: seq<Byte>, e: seq<Byte>, s: seq<Byte>)
    requires s == a + b + c + d + e
    ensures var i, j, k := |a| + |b|, |a| + |b| + |c|, |a| + |b| + |c| + |d|;
            |s| == k + |e| && s[..|a|] == a && s[|a|..i] == b && s[i..j] == c && s[j..k] == d && s[k..] == e
    ensures forall i :: 0 <= i < |a| ==> s[i] == a[i]
  {
  }

  /** And reading succeeds on nothing but the bytes of a frame. */
  lemma FrameBytes(s: seq<Byte>)
    requires FirstFrame(s).Some?
    ensures var (f, rest) := FirstFrame(s).value; WellFormed(f) && s == Wire(f) + rest
  {
    hide Mask, Second, Extended, FormOf, SizeOf, Masked, WellFormed, Wire, ExtendedWidth;
    var (f, rest) := FirstFrame(s).value;
    var width := ExtendedWidth(FormOf(s[1]));
    var start := 2 + width + if Masked(s[1]) then 4 else 0;
    var end := start + SizeOf(s[1], s[2..2 + width]);
    PartsAreWire(s, f, 2 + width, start, end);
  }

  /** The parts of the stream that reading takes for a frame's are that frame's bytes. */
  lemma PartsAreWire(s: seq<Byte>, f: Frame, mask: nat, start: nat, end: nat)
    requires 2 <= mask <= start <= end <= |s| && start == mask + if Masked(s[1]) then 4 else 0
    requires mask == 2 + ExtendedWidth(FormOf(s[1])) && end == start + SizeOf(s[1], s[2..mask])
    requires f == Frame(s[0], FormOf(s[1]), s[mask..start], Mask(s[mask..start], s[start..end]))
    ensures WellFormed(f) && s == Wire(f) + s[end..]
  {
    hide Mask, Second, Extended, FormOf, SizeOf, Masked, ExtendedWidth;
    MaskTwice(s[mask..start], s[start..end]);
    HeaderWritten(s[1], s[2..mask], f);
    Cut(s, 2, mask, start, end);
    assert s[..2] == [s[0], s[1]];
  }

  lemma Cut(s: seq<Byte>, a: nat, b: nat, c: nat, d: nat)
    requires a <= b <= c <= d <= |s|
    ensures s == s[..a] + s[a..b] + s[b..c] + s[c..d] + s[d..]
  {
  }

  // ----- Messages -----

  /** What one call of `_receive_text` makes of the bytes to come, and which of them it leaves. */
  datatype Received = Text(payload: seq<Byte>, rest: seq<Byte>) | Closed | Unsupported | Disconnected

  function Opcode(f: Frame): Byte {
    f.first % 0x10
  }

  predicate Final(f: Frame) {
    f.first >= 0x80
  }

  function ReceiveText(s: seq<Byte>): Received
    decreases |s|
  {
    match FirstFrame(s)
    case None => Disconnected
    case Some((f, rest)) =>
      if Opcode(f) == OPCODE_CLOSE then Closed
      else if Opcode(f) == OPCODE_PING then ReceiveText(rest)
      else if Opcode(f) != OPCODE_TEXT || !Final(f) then Unsupported
      else Text(f.payload, rest)
  }

  /** The bytes of frames one after the other. */
  function Wires(frames: seq<LegalFrame>): seq<Byte> {
    if frames == [] then [] else Wire(frames[0]) + Wires(frames[1..])
  }

  predicate Pings(frames: seq<Frame>) {
    forall i :: 0 <= i < |frames| ==> Opcode(frames[i]) == OPCODE_PING
  }

  predicate WholeText(f: Frame) {
    Opcode(f) == OPCODE_TEXT && Final(f)
  }

  /** Pings are skipped, whatever they carry. */
  lemma {:induction false} PingsAreSkipped(pings: seq<LegalFrame>, rest: seq<Byte>)
    requires Pings(pings)
    ensures ReceiveText(Wires(pings) + rest) == ReceiveText(rest)
    decreases |pings|
  {
    if pings == [] {
      assert Wires(pings) + rest == rest;
    } else {
      var after := Wires(pings[1..]) + rest;
      assert Wires(pings) + rest == Wire(pings[0]) + after;
      FrameRoundTrip(pings[0], after);
      PingsAreSkipped(pings[1..], rest);
    }
  }

  /** A message as the peer sends it: a whole text frame, after any number of pings. */
  datatype Message = Message(pings: seq<LegalFrame>, text: LegalFrame)

  predicate GoodMessage(m: Message) {
    Pings(m.pings) && WholeText(m.text)
  }

  function Stream(messages: seq<Message>): seq<Byte> {
    if messages == [] then [] else Wires(messages[0].pings) + Wire(messages[0].text) + Stream(messages[1..])
  }

  function Payloads(messages: seq<Message>): (r: seq<seq<Byte>>)
    ensures |r| == |messages| && forall i :: 0 <= i < |r| ==> r[i] == messages[i].text.payload
  {
    seq(|messages|, i requires 0 <= i < |messages| => messages[i].text.payload)
  }

  /** `n` calls of `_receive_text` in a row. */
  function ReceiveMany(s: seq<Byte>, n: nat): Option<(seq<seq<Byte>>, seq<Byte>)>
    decreases n
  {
    if n == 0 then Some(([], s))
    else
      match ReceiveText(s)
      case Text(payload, rest) =>
        (match ReceiveMany(rest, n - 1)
         case None => None
         case Some((more, left)) => Some(([payload] + more, left)))
      case _ => None
  }

  lemma PayloadsCons(messages: seq<Message>)
    requires messages != []
    ensures Payloads(messages) == [messages[0].text.payload] + Payloads(messages[1..])
  {
  }

  lemma MessageReceived(m: Message, rest: seq<Byte>)
    requires GoodMessage(m)
    ensures ReceiveText(Wires(m.pings) + Wire(m.text) + rest) == Text(m.text.payload, rest)
  {
    assert Wires(m.pings) + Wire(m.text) + rest == Wires(m.pings) + (Wire(m.text) + rest);
    PingsAreSkipped(m.pings, Wire(m.text) + rest);
    FrameRoundTrip(m.text, rest);
  }

  lemma StreamCons(messages: seq<Message>, rest: seq<Byte>)
    requires messages != []
    ensures Stream(messages) + rest == Wires(messages[0].pings) + Wire(messages[0].text)
            + (Stream(messages[1..]) + rest)
  {
    hide Wires, Wire, WellFormed;
    Append(Wires(messages[0].pings) + Wire(messages[0].text), Stream(messages[1..]), rest);
  }

  lemma ReceiveNext(s: seq<Byte>, n: nat)
    requires n > 0 && ReceiveText(s).Text? && ReceiveMany(ReceiveText(s).rest, n - 1).Some?
    ensures var (more, left) := ReceiveMany(ReceiveText(s).rest, n - 1).value;
            ReceiveMany(s, n) == Some(([ReceiveText(s).payload] + more, left))
  {
  }

  lemma NothingToReceive(rest: seq<Byte>)
    ensures ReceiveMany(Stream([]) + rest, 0) == Some((Payloads([]), rest))
  {
    assert Stream([]) + rest == rest;
  }

  /**
   Any sequence of messages, however masked, with pings in between, is received as the same payloads in
   the same order, and exactly its bytes are consumed.
   */
  lemma {:induction false} StreamIsReceived(messages: seq<Message>, rest: seq<Byte>)
    requires forall i :: 0 <= i < |messages| ==> GoodMessage(messages[i])
    ensures ReceiveMany(Stream(messages) + rest, |messages|) == Some((Payloads(messages), rest))
    decreases |messages|
  {
    hide Stream, ReceiveMany, ReceiveText, Wires, Wire, WellFormed, Payloads, GoodMessage;
    if messages == [] {
      NothingToReceive(rest);
    } else {
      var m, more := messages[0], messages[1..];
      StreamCons(messages, rest);
      MessageReceived(m, Stream(more) + rest);
      StreamIsReceived(more, rest);
      PayloadsCons(messages);
      ReceiveNext(Stream(messages) + rest, |messages|);
    }
  }

  /** The other way round: what is received is what some message sent, in front of what is left. */
  lemma {:induction false} ReceivedWasSent(s: seq<Byte>) returns (m: Message)
    requires ReceiveText(s).Text?
    ensures GoodMessage(m) && m.text.payload == ReceiveText(s).payload
    ensures s == Wires(m.pings) + Wire(m.text) + ReceiveText(s).rest
    decreases |s|
  {
    var (f, rest) := FirstFrame(s).value;
    FrameBytes(s);
    if Opcode(f) == OPCODE_PING {
      hide FirstFrame, Wire, WellFormed, Opcode, Final;
      var n := ReceivedWasSent(rest);
      m := PingBefore(f, n);
      hide ReceiveText, Wires;
      Append3(Wire(f), Wires(n.pings), Wire(n.text), ReceiveText(rest).rest);
    } else {
      m := Message([], f);
    }
  }

  /** A ping more in front of a message. */
  lemma PingBefore(f: LegalFrame, n: Message) returns (m: Message)
    requires GoodMessage(n) && Opcode(f) == OPCODE_PING
    ensures GoodMessage(m) && m.text == n.text && Wires(m.pings) == Wire(f) + Wires(n.pings)
  {
    hide Wire, WellFormed;
    m := Message([f] + n.pings, n.text);
    assert m.pings[1..] == n.pings;
  }

  lemma Append3(a: seq<Byte>, b: seq<Byte>, c: seq<Byte>, d: seq<Byte>)
    ensures a + (b + c + d) == a + b + c + d
  {
  }

  // ----- Sending -----

  function MinimalForm(size: nat): Form {
    if size < 126 then Short else if size <= 0xFFFF then Medium else Long
  }

  function TextFrame(mask: seq<Byte>, payload: seq<Byte>): Frame {
    Frame(0x81, MinimalForm(|payload|), mask, payload)
  }

  /** What is sent is a whole text frame, and no way to write its length would take fewer bytes. */
  lemma SentIsWholeAndMinimal(mask: seq<Byte>, payload: seq<Byte>, other: Frame)
    requires |mask| == 4 && |payload| < 0x1_0000_0000_0000_0000
    ensures WholeText(TextFrame(mask, payload))
    ensures WellFormed(other) && |other.mask| == 4 && other.payload == payload
            ==> |Wire(TextFrame(mask, payload))| <= |Wire(other)|
  {
  }

  /** Where the mask begins: behind two bytes and those of a longer length. */
  function HeaderSize(size: nat): nat {
    if size < 126 then 2 else if size <= 0xFFFF then 4 else 10
  }

  /**
   The bytes that are sent, one by one: a final text frame, the mask bit and the length with its most
   significant byte first, the mask, and the payload, of which every bit is added modulo 2 to that of the
   mask byte whose turn it is.
   */
  lemma SentBytes(mask: seq<Byte>, payload: seq<Byte>)
    requires |mask| == 4 && |payload| < 0x1_0000_0000_0000_0000
    ensures var sent, size, h := Wire(TextFrame(mask, payload)), |payload|, HeaderSize(|payload|);
            && |sent| == h + 4 + size && sent[0] == 0x81
            && sent[1] == 0x80 + (if size < 126 then size else if size <= 0xFFFF then 126 else 127)
            && (forall i :: 2 <= i < h ==> sent[i] == size / Power256(h - 1 - i) % 256)
            && sent[h..h + 4] == mask
            && forall i, k: nat :: 0 <= i < size && k < 8 ==>
                 sent[h + 4 + i] / Power2(k) % 2 == (payload[i] / Power2(k) + mask[i % 4] / Power2(k)) % 2
  {
    hide Mask, Second;
    var f, size, h := TextFrame(mask, payload), |payload|, HeaderSize(|payload|);
    var masked := Mask(mask, payload);
    TextHeader(mask, payload);
    SentParts(f, h);
    forall i | 2 <= i < h ensures Wire(f)[i] == size / Power256(h - 1 - i) % 256 {
      BigEndianByte(size, h - 2, i - 2);
    }
    forall i, k: nat | 0 <= i < size && k < 8
      ensures Wire(f)[h + 4 + i] / Power2(k) % 2 == (payload[i] / Power2(k) + mask[i % 4] / Power2(k)) % 2
    {
      MaskedBit(mask, payload, i, k);
      assert Wire(f)[h + 4 + i] == masked[i];
    }
  }

  lemma SentParts(f: Frame, h: nat)
    requires WellFormed(f) && |f.mask| == 4 && h == 2 + |Extended(f)|
    ensures var sent, masked := Wire(f), Mask(f.mask, f.payload);
            && |sent| == h + 4 + |masked| && sent[0] == f.first && sent[1] == Second(f)
            && (forall i :: 2 <= i < h ==> sent[i] == Extended(f)[i - 2]) && sent[h..h + 4] == f.mask
            && forall i :: 0 <= i < |masked| ==> sent[h + 4 + i] == masked[i]
  {
    hide Mask, Second, Extended;
  }

  lemma MaskedBit(mask: seq<Byte>, payload: seq<Byte>, i: nat, k: nat)
    requires |mask| == 4 && i < |payload| && k < 8
    ensures Mask(mask, payload)[i] / Power2(k) % 2 == (payload[i] / Power2(k) + mask[i % 4] / Power2(k)) % 2
  {
    XorAdds(payload[i], mask[i % 4], k);
  }

  lemma TextHeader(mask: seq<Byte>, payload: seq<Byte>)
    requires |mask| == 4 && |payload| < 0x1_0000_0000_0000_0000
    ensures WellFormed(TextFrame(mask, payload))
    ensures Second(TextFrame(mask, payload)) ==
              if |payload| < 126 then 0x80 + |payload| else if |payload| <= 0xFFFF then 0xFE else 0xFF
  {
  }

  lemma Slices(s: seq<Byte>, i: nat, j: nat)
    requires i <= j <= |s|
    ensures s[i..][..j - i] == s[i..j] && s[i..][j - i..] == s[j..]
  {
  }

  // ----- The connection -----

  /** `incoming` are the bytes that the peer will still deliver before it closes the connection. */
  class Connection {
    var incoming: seq<Byte>
    var sent: seq<Byte>

    constructor (bytes: seq<Byte>)
      ensures incoming == bytes && sent == []
    {
      incoming, sent := bytes, [];
    }

    /** Hands out as much as the network likes, at least one byte while there are any. */
    method Recv(size: nat) returns (chunk: seq<Byte>)
      requires size > 0
      modifies `incoming
      ensures old(incoming) == chunk + incoming && |chunk| <= size
      ensures chunk == [] <==> old(incoming) == []
    {
      if incoming == [] {
        return [];
      }
      var n: nat :| 1 <= n <= size && n <= |incoming|;
      chunk := incoming[..n];
      incoming := incoming[n..];
    }

    method SendAll(bytes: seq<Byte>)
      modifies `sent
      ensures sent == old(sent) + bytes
    {
      sent := sent + bytes;
    }

    /** `_receive_exact`: however the bytes come in, exactly `size` of them are taken, or the peer is gone. */
    method ReceiveExact(size: nat) returns (r: Option<seq<Byte>>)
      modifies `incoming
      ensures if size <= |old(incoming)|
              then r == Some(old(incoming)[..size]) && incoming == old(incoming)[size..]
              else r == None
    {
      var chunks: seq<Byte> := [];
      var remaining: nat := size;
      while remaining > 0
        invariant remaining + |chunks| == size && old(incoming) == chunks + incoming
        decreases remaining
      {
        var chunk := Recv(remaining);
        if chunk == [] {
          return None;
        }
        chunks := chunks + chunk;
        remaining := remaining - |chunk|;
      }
      assert old(incoming)[..size] == chunks && old(incoming)[size..] == incoming;
      return Some(chunks);
    }

    /** Reads one frame: two bytes, the longer length, the mask, the payload. */
    method ReceiveFrame() returns (r: Option<Frame>)
      modifies `incoming
      ensures match FirstFrame(old(incoming))
              case None => r == None
              case Some((f, rest)) => r == Some(f) && incoming == rest
    {
      hide Mask, SizeOf, FormOf, Masked;
      ghost var s := incoming;
      var start := ReceiveExact(2);
      if start.None? { return None; }
      var first, second := start.value[0], start.value[1];
      var form := FormOf(second);
      assert first == s[0] && second == s[1];
      ghost var a := 2 + ExtendedWidth(form);
      ghost var b := a + if Masked(second) then 4 else 0;
      var extended := ReceiveExact(ExtendedWidth(form));
      if extended.None? { return None; }
      Slices(s, 2, a);
      var length := SizeOf(second, extended.value);
      var mask := ReceiveExact(if Masked(second) then 4 else 0);
      if mask.None? { return None; }
      Slices(s, a, b);
      var payload := ReceiveExact(length);
      if payload.None? { return None; }
      Slices(s, b, b + length);
      return Some(Frame(first, form, mask.value, Mask(mask.value, payload.value)));
    }

    /** `_receive_text` */
    method ReceiveTextMessage() returns (r: Received)
      modifies `incoming
      ensures match ReceiveText(old(incoming))
              case Text(payload, rest) => r == Text(payload, rest) && incoming == rest
              case failure => r == failure
    {
      while true
        invariant ReceiveText(incoming) == ReceiveText(old(incoming))
        decreases |incoming|
      {
        var frame := ReceiveFrame();
        if frame.None? { return Disconnected; }
        var f := frame.value;
        if Opcode(f) == OPCODE_CLOSE { return Closed; }
        if Opcode(f) == OPCODE_PING { continue; }
        if Opcode(f) != OPCODE_TEXT || !Final(f) { return Unsupported; }
        return Text(f.payload, incoming);
      }
    }

    /** `_send_text`; a size that eight bytes cannot hold is an error, and nothing is sent. */
    method SendText(payload: seq<Byte>, mask: seq<Byte>) returns (ok: bool)
      requires |mask| == 4
      modifies `sent
      ensures ok <==> |payload| < 0x1_0000_0000_0000_0000
      ensures sent == if ok then old(sent) + Wire(TextFrame(mask, payload)) else old(sent)
    {
      hide Mask, Second, WellFormed;
      var size := |payload|;
      var header: seq<Byte>;
      if size < 126 {
        header := [0x81, 0x80 + size];
      } else if size <= 0xFFFF {
        header := [0x81, 0xFE] + BigEndian(size, 2);
      } else if size < 0x1_0000_0000_0000_0000 {
        header := [0x81, 0xFF] + BigEndian(size, 8);
      } else {
        return false;
      }
      TextHeader(mask, payload);
      var masked := Mask(mask, payload);
      assert header + mask + masked == Wire(TextFrame(mask, payload));
      SendAll(header + mask + masked);
      return true;
    }
  }
}
