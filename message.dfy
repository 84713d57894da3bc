/**
 * The RPC message envelope of the remote module: the header constants, the
 * process-wide request-id counter, and a message whose identity (equals and
 * hashCode) is its 64-bit request id `opaque` (the field `opaqueId` here) alone.
 */
module RemoteMessage {
  import opened JavaPrimitives

  /**
   * The message-type tag. Only TASK_EXECUTE_START is named by the classes in
   * this model; the rest of the enumeration stands behind `OtherMessageType`.
   */
  datatype MessageType = TaskExecuteStart | OtherMessageType(name: string)

  /** The transport context every message carries; its contents are not part of this model. */
  class MessageContext {
    constructor ()
    {
    }
  }

  /** The protocol marker: `(byte) 0xbabe`, which keeps only the low byte 0xBE. */
  const MAGIC: Byte := NarrowToByte(0xbabe)

  /** The protocol version. */
  const VERSION: Byte := 0

  /** MAGIC is the signed byte -66, whose unsigned value is 0xBE, the low byte of 0xbabe. */
  lemma MagicIsLowByteOfBabe()
    ensures MAGIC == -66
    ensures MAGIC as int + 0x100 == 0xBE
    ensures (0xbabe - (MAGIC as int + 0x100)) % 0x100 == 0
    ensures VERSION == 0
  {
  }

  /** The ids that n successive no-argument constructions take from a counter seeded at 1. */
  function IssuedIds(n: nat): (ids: seq<Long>)
    ensures |ids| == n
  {
    seq(n, k => WrapLong(1 + k))
  }

  /**
   * The process-wide REQUEST_ID counter, seeded at 1. getAndIncrement hands
   * out its value and advances it by one; like AtomicLong it wraps from
   * Long.MAX_VALUE to Long.MIN_VALUE.
   */
  class RequestIdCounter {
    var value: Long
    /** The ids handed out so far, oldest first. */
    ghost var issued: seq<Long>

    ghost predicate Valid()
      reads this
    {
      issued == IssuedIds(|issued|) && value == WrapLong(1 + |issued|)
    }

    constructor ()
      ensures Valid() && issued == [] && value == 1
    {
      value := 1;
      issued := [];
    }

    method GetAndIncrement() returns (id: Long)
      requires Valid()
      modifies this
      ensures Valid()
      ensures id == old(value)
      ensures value == WrapLong(old(value) as int + 1)
      ensures issued == old(issued) + [id]
    {
      id := value;
      value := WrapLong(value as int + 1);
      WrapLongCongruent(id as int + 1, 1 + |issued| + 1);
      issued := issued + [id];
      assert issued == IssuedIds(|issued|);
    }
  }

  /** The first id a fresh process hands out is 1. */
  lemma FirstIssuedIdIsOne(n: nat)
    requires n > 0
    ensures IssuedIds(n)[0] == 1
  {
  }

  /** Up to 2^64 successive ids are pairwise distinct: the counter repeats only after a full cycle. */
  lemma IssuedIdsDistinct(n: nat, i: nat, j: nat)
    requires n <= 0x1_0000_0000_0000_0000
    requires i < j < n
    ensures IssuedIds(n)[i] != IssuedIds(n)[j]
  {
    WrapLongInjective(1 + i, 1 + j);
  }

  /** Until the counter reaches Long.MAX_VALUE, the k-th id is k + 1 and ids strictly increase. */
  lemma IssuedIdsIncrease(n: nat, i: nat, j: nat)
    requires n <= LONG_MAX as int
    requires i < j < n
    ensures IssuedIds(n)[i] as int == i + 1
    ensures IssuedIds(n)[i] < IssuedIds(n)[j]
  {
  }

  /** The id after Long.MAX_VALUE is Long.MIN_VALUE: from there on ids are negative. */
  lemma IssuedIdsWrapAfterMax(n: nat)
    requires n == 0x8000_0000_0000_0000
    ensures IssuedIds(n)[n - 2] == LONG_MAX
    ensures IssuedIds(n)[n - 1] == LONG_MIN
  {
  }

  /**
   * Message.hashCode for the id `opaque`: `31 * 1 + (int) (opaque ^ (opaque >>> 32))`
   * in 32-bit arithmetic, that is 31 plus Long.hashCode(opaque), whose bits are the
   * exclusive or of the id's two 32-bit halves.
   */
  function MessageHashCode(opaqueId: Long): (h: Int)
    ensures IntBits(h) == 31 + (LowWord(LongBits(opaqueId)) ^ HighWord(LongBits(opaqueId)))
    ensures IntBits(h) == 31 + IntBits(LongHashCode(opaqueId))
  {
    var prime: bv32 := 31;
    var result: bv32 := 1;
    // (int) (opaque ^ (opaque >>> 32)) is Long.hashCode(opaque)
    var folded := IntBits(LongHashCode(opaqueId));
    IntBitsOfIntOfBits(prime * result + folded);
    IntOfBits(prime * result + folded)
  }

  class Message {
    /** The `type` field, null until set. */
    var messageType: Option<MessageType>
    /** The request's unique identification. */
    var opaqueId: Long
    var context: MessageContext?
    var body: array?<Byte>

    /** Message(): the id is the counter's current value, which then advances by one. */
    constructor (requestIds: RequestIdCounter)
      requires requestIds.Valid()
      modifies requestIds
      ensures requestIds.Valid()
      ensures opaqueId == old(requestIds.value)
      ensures requestIds.value == WrapLong(opaqueId as int + 1)
      ensures requestIds.issued == old(requestIds.issued) + [opaqueId]
      ensures messageType == None && fresh(context) && body == null
      ensures BodyLen() == 0
    {
      var id := requestIds.GetAndIncrement();
      messageType := None;
      context := new MessageContext();
      body := null;
      opaqueId := id;
    }

    /** Message(long opaque): the id is exactly the one given; no counter is involved. */
    constructor WithOpaque(opaqueId: Long)
      ensures this.opaqueId == opaqueId
      ensures messageType == None && fresh(context) && body == null
      ensures BodyLen() == 0
    {
      messageType := None;
      context := new MessageContext();
      body := null;
      this.opaqueId := opaqueId;
    }

    method SetType(messageType: Option<MessageType>)
      modifies this
      ensures this.messageType == messageType
      ensures opaqueId == old(opaqueId) && context == old(context) && body == old(body)
      ensures BodyLen() == old(BodyLen())
    {
      this.messageType := messageType;
    }

    method SetOpaque(opaqueId: Long)
      modifies this
      ensures this.opaqueId == opaqueId
      ensures messageType == old(messageType) && context == old(context) && body == old(body)
      ensures BodyLen() == old(BodyLen())
    {
      this.opaqueId := opaqueId;
    }

    method SetBody(body: array?<Byte>)
      modifies this
      ensures this.body == body
      ensures messageType == old(messageType) && opaqueId == old(opaqueId) && context == old(context)
      ensures body == null ==> BodyLen() == 0
      ensures body != null ==> BodyLen() == body.Length
    {
      this.body := body;
    }

    method SetContext(context: MessageContext?)
      modifies this
      ensures this.context == context
      ensures messageType == old(messageType) && opaqueId == old(opaqueId) && body == old(body)
      ensures BodyLen() == old(BodyLen())
    {
      this.context := context;
    }

    /** hashCode: the hash of this message's id alone. */
    function HashCode(): Int
      reads this
    {
      MessageHashCode(opaqueId)
    }

    /** equals: the same object, or another Message (exactly that class) with the same id. */
    function Equals(obj: object?): (eq: bool)
      reads this, obj
      ensures eq <==> obj is Message && opaqueId == (obj as Message).opaqueId
      ensures obj == null ==> !eq
    {
      if this == obj then true
      else if obj == null then false
      else if !(obj is Message) then false
      else opaqueId == (obj as Message).opaqueId
    }

    /**
     * The bodyLen that toString reports: the body's length, or 0 without a
     * body, so that a null body and an empty one read alike.
     */
    function BodyLen(): (n: nat)
      reads this
      ensures body != null ==> n == body.Length
      ensures n == 0 <==> body == null || body.Length == 0
    {
      if body == null then 0 else body.Length
    }
  }

  /** toString cannot tell a message without a body from one with an empty body. */
  lemma BodyLenHidesNullBody(a: Message, b: Message)
    requires a.body == null && b.body != null && b.body.Length == 0
    ensures a.BodyLen() == b.BodyLen() == 0
  {
  }

  /** In a fresh process the first message built with Message() gets id 1, the next id 2. */
  method FirstMessagesInFreshProcess() returns (first: Message, second: Message)
    ensures first.opaqueId == 1 && second.opaqueId == 2
    ensures !first.Equals(second)
  {
    var requestIds := new RequestIdCounter();
    first := new Message(requestIds);
    second := new Message(requestIds);
  }

  /** Messages built with Message() from one counter never share an id while fewer than 2^64 were built. */
  lemma CounterMessagesDistinct(c: RequestIdCounter, i: nat, j: nat)
    requires c.Valid()
    requires |c.issued| <= 0x1_0000_0000_0000_0000
    requires i < j < |c.issued|
    ensures c.issued[i] != c.issued[j]
  {
    IssuedIdsDistinct(|c.issued|, i, j);
  }

  lemma EqualsReflexive(a: Message)
    ensures a.Equals(a)
  {
  }

  lemma EqualsSymmetric(a: Message, b: Message)
    ensures a.Equals(b) == b.Equals(a)
  {
  }

  lemma EqualsTransitive(a: Message, b: Message, c: Message)
    requires a.Equals(b) && b.Equals(c)
    ensures a.Equals(c)
  {
  }

  /** Type, context and body play no part in equality: the same id is enough. */
  lemma EqualsIgnoresPayload(a: Message, b: Message)
    requires a.opaqueId == b.opaqueId
    ensures a.Equals(b)
  {
  }

  /** equals is consistent with hashCode. */
  lemma EqualMessagesHaveEqualHashCodes(a: Message, b: Message)
    requires a.Equals(b)
    ensures a.HashCode() == b.HashCode()
  {
  }

  /** The first id, 1, hashes to 32. */
  lemma HashCodeOfFirstId(m: Message)
    requires m.opaqueId == 1
    ensures IntBits(m.HashCode()) == 32
  {
  }

  /** Unequal messages can share a hash code: ids 0 and 2^32 + 1 both hash to 31. */
  lemma HashCodeCollision(a: Message, b: Message)
    requires a.opaqueId == 0 && b.opaqueId == 0x1_0000_0001
    ensures !a.Equals(b)
    ensures IntBits(a.HashCode()) == IntBits(b.HashCode()) == 31
  {
  }
}
