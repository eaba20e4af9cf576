/** The 32-bit immediate that travels with a request and with its reply, under two's-complement
    semantics of the C++ shifts. */
module WireTags {

  /** Host to network byte order, and back, on a little-endian host. */
  function SwapBytes(x: bv32): bv32 {
    (x << 24) | ((x & 0xFF00) << 8) | ((x >> 8) & 0xFF00) | (x >> 24)
  }

  /** What the client puts on the wire: 16 bits of invocation id, the flag that asks for a solicited
      reply, and 15 bits of function index. */
  function PackRequest(invocId: bv32, solicited: bool, funcIdx: bv32): bv32 {
    SwapBytes((invocId << 16) | Flag(solicited) | funcIdx)
  }

  function Flag(solicited: bool): bv32 { if solicited then 1 << 15 else 0 }

  const INVOCATION_MASK: bv32 := 0x00007FFF
  const SOLICITED_MASK: bv32 := 0x00008000

  datatype Request = Request(invocId: bv32, solicited: bool, funcId: bv32)

  /** `info >> 16` of a signed `info`: the sign bit is copied into the upper half. */
  function SignedShift16(info: bv32): bv32 {
    WithSign(info & 0x8000_0000, info >> 16)
  }

  function WithSign(sign: bv32, half: bv32): bv32 {
    if sign != 0 then half | 0xFFFF_0000 else half
  }

  function Read(info: bv32): Request {
    Request(SignedShift16(info), info & SOLICITED_MASK != 0, info & INVOCATION_MASK)
  }

  function UnpackRequest(wire: bv32): Request { Read(SwapBytes(wire)) }

  /** The worker's reply: the (sign-extended) id and the return value 0. */
  function PackReply(invocId: bv32): bv32 {
    SwapBytes((invocId << 16) | 0)
  }

  datatype Reply = Reply(returnVal: bv32, finishedInvocId: bv32)

  function UnpackReply(wire: bv32): Reply {
    var val := SwapBytes(wire);
    Reply(val & 0x0000FFFF, val >> 16)
  }

  lemma SwapTwice(x: bv32)
    ensures SwapBytes(SwapBytes(x)) == x
  {
  }

  lemma RequestFields(id: bv32, flag: bv32, func: bv32)
    requires flag == 0 || flag == 1 << 15
    ensures var info := (id << 16) | flag | func;
            id < 0x1_0000 && func < 0x8000 ==>
              && info & INVOCATION_MASK == func
              && (info & SOLICITED_MASK != 0 <==> flag != 0)
              && SignedShift16(info) & 0xFFFF == id
  {
  }

  lemma WideIndexIsCut(id: bv32, flag: bv32, func: bv32)
    requires !(func < 0x8000)
    ensures ((id << 16) | flag | func) & INVOCATION_MASK != func
  {
  }

  lemma WideIdIsCut(info: bv32, id: bv32)
    requires !(id < 0x1_0000)
    ensures SignedShift16(info) & 0xFFFF != id
  {
  }

  predicate Carries(r: Request, id: bv32, solicited: bool, func: bv32) {
    r.funcId == func && r.solicited == solicited && r.invocId & 0xFFFF == id
  }

  lemma NarrowIsCarried(id: bv32, solicited: bool, func: bv32)
    requires id < 0x1_0000 && func < 0x8000
    ensures Carries(Read((id << 16) | Flag(solicited) | func), id, solicited, func)
  {
    RequestFields(id, Flag(solicited), func);
  }

  lemma WireIsRead(id: bv32, solicited: bool, func: bv32)
    ensures UnpackRequest(PackRequest(id, solicited, func)) == Read((id << 16) | Flag(solicited) | func)
  {
    Arrives((id << 16) | Flag(solicited) | func);
  }

  lemma Arrives(info: bv32)
    ensures UnpackRequest(SwapBytes(info)) == Read(info)
  {
    SwapTwice(info);
  }

  /** The worker decodes exactly what the client packed, for either flag, if and only if the id fits
      16 bits and the function index 15 bits. */
  lemma RequestRoundTripIff(id: bv32, solicited: bool, func: bv32)
    ensures Carries(UnpackRequest(PackRequest(id, solicited, func)), id, solicited, func) <==>
              (id < 0x1_0000 && func < 0x8000)
  {
    WireIsRead(id, solicited, func);
    if !(id < 0x1_0000) {
      WideIdIsCut((id << 16) | Flag(solicited) | func, id);
    } else if !(func < 0x8000) {
      WideIndexIsCut(id, Flag(solicited), func);
    } else {
      NarrowIsCarried(id, solicited, func);
    }
  }

  lemma UpperHalf(id: bv32, flag: bv32, func: bv32)
    requires (flag == 0 || flag == 1 << 15) && func < 0x8000
    ensures ((id << 16) | flag | func) >> 16 == id & 0xFFFF
    ensures ((id << 16) | flag | func) & 0x8000_0000 == (id & 0x8000) << 16
  {
  }

  /** The lower half of a number with its own sign copied into the upper half. */
  function Extended(id: bv32): bv32 {
    WithSign((id & 0x8000) << 16, id & 0xFFFF)
  }

  lemma SmallIsKept(id: bv32)
    requires id < 0x8000
    ensures (id & 0x8000) << 16 == 0 && id & 0xFFFF == id
  {
  }

  lemma NegativeIsKept(id: bv32)
    requires 0xFFFF_8000 <= id
    ensures (id & 0x8000) << 16 != 0 && (id & 0xFFFF) | 0xFFFF_0000 == id
  {
  }

  lemma UnsignedIsKept(id: bv32)
    requires (id & 0x8000) << 16 == 0 && id & 0xFFFF == id
    ensures id < 0x8000
  {
  }

  lemma SignedIsKept(id: bv32)
    requires (id & 0x8000) << 16 != 0 && (id & 0xFFFF) | 0xFFFF_0000 == id
    ensures 0xFFFF_8000 <= id
  {
  }

  lemma ExtendedIff(id: bv32)
    ensures Extended(id) == id <==> id < 0x8000 || 0xFFFF_8000 <= id
  {
    var sign := (id & 0x8000) << 16;
    if id < 0x8000 {
      SmallIsKept(id);
    } else if 0xFFFF_8000 <= id {
      NegativeIsKept(id);
    } else if sign == 0 && id & 0xFFFF == id {
      UnsignedIsKept(id);
    } else if sign != 0 && (id & 0xFFFF) | 0xFFFF_0000 == id {
      SignedIsKept(id);
    }
  }

  lemma SignExtended(id: bv32, flag: bv32, func: bv32)
    requires (flag == 0 || flag == 1 << 15) && func < 0x8000
    ensures SignedShift16((id << 16) | flag | func) == Extended(id)
  {
    UpperHalf(id, flag, func);
  }

  /** The worker's own copy of the id, sign-extended, is the packed one if and only if the id fits 15
      bits (or is the negative number that it turns into). */
  lemma WorkerIdIff(id: bv32, solicited: bool, func: bv32)
    requires func < 0x8000
    ensures UnpackRequest(PackRequest(id, solicited, func)).invocId == id <==> id < 0x8000 || 0xFFFF_8000 <= id
  {
    WireIsRead(id, solicited, func);
    SignExtended(id, Flag(solicited), func);
    ExtendedIff(id);
  }

  lemma SignIsShiftedOut(info: bv32)
    ensures (SignedShift16(info) << 16) >> 16 == SignedShift16(info) & 0xFFFF
    ensures (SignedShift16(info) << 16) & 0xFFFF == 0
  {
  }

  /** The whole way: the reply that the worker builds from what it decoded tells the client the id
      it had packed, with return value 0, although the worker's own copy may be negative. */
  lemma ReplyRoundTrip(id: bv32, solicited: bool, func: bv32)
    requires id < 0x1_0000 && func < 0x8000
    ensures UnpackReply(PackReply(UnpackRequest(PackRequest(id, solicited, func)).invocId)) == Reply(0, id)
  {
    RequestRoundTripIff(id, solicited, func);
    var seen := UnpackRequest(PackRequest(id, solicited, func)).invocId;
    SwapTwice(seen << 16);
    SignIsShiftedOut(SwapBytes(PackRequest(id, solicited, func)));
  }

  /** Distinct invocations get distinct immediates. */
  lemma RequestsDiffer(id: bv32, func: bv32, solicited: bool, id': bv32, func': bv32, solicited': bool)
    requires id < 0x1_0000 && func < 0x8000 && id' < 0x1_0000 && func' < 0x8000
    requires PackRequest(id, solicited, func) == PackRequest(id', solicited', func')
    ensures id == id' && func == func' && solicited == solicited'
  {
    RequestRoundTripIff(id, solicited, func);
    RequestRoundTripIff(id', solicited', func');
  }
}
