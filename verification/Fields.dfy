/** The fields frames are made of, and how a decoder reads them from the front of what is left of a frame. */
module Fields {
  import opened Wrappers
  import opened Bytes
  import opened Utf8
  import opened Frames

  const MAX_TOPIC_NAME := 249
  const MAX_KEY_SIZE := 0xFFFF
  const MAX_MESSAGE_SIZE := 1024 * 1024

  /** A field and the bytes after it. */
  type Parsed<+T> = Result<(T, bytes), ProtocolError>

  function Field<T>(r: Option<(T, bytes)>): Parsed<T> {
    match r
    case Some(field) => Success(field)
    case None => Failure(InvalidFrame)
  }

  function GetU8(b: bytes): Parsed<u8> { Field(ReadU8(b)) }

  function GetU16(b: bytes): Parsed<u16> { Field(ReadU16(b)) }

  function GetU32(b: bytes): Parsed<u32> { Field(ReadU32(b)) }

  function GetU64(b: bytes): Parsed<u64> { Field(ReadU64(b)) }

  function GetI32(b: bytes): Parsed<int> { Field(ReadI32(b)) }

  function GetBytes(b: bytes, n: nat): Parsed<bytes> { Field(Split(b, n)) }

  function EnsureRemaining(b: bytes, n: nat): Result<Unit, ProtocolError> {
    if |b| < n then Failure(InvalidFrame) else Success(Done)
  }

  function EnsureEmpty(b: bytes): Result<Unit, ProtocolError> {
    if b != [] then Failure(InvalidFrame) else Success(Done)
  }

  function Str(s: bytes): (b: bytes)
    requires |s| < 0x1_0000
    ensures |b| == 2 + |s|
  {
    U16(|s|) + s
  }

  function PutString(s: bytes): Result<bytes, ProtocolError> {
    if |s| >= 0x1_0000 then Failure(InvalidFrame) else Success(Str(s))
  }

  function GetString(b: bytes): Parsed<bytes> {
    var (length, b1) :- GetU16(b);
    var (s, b2) :- GetBytes(b1, length);
    if !ValidUtf8(s) then Failure(InvalidFrame) else Success((s, b2))
  }

  /** The presence flag and value of an optional 32-bit field. */
  function OptionU32(o: Option<u32>): bytes {
    U8(if o.Some? then 1 else 0) + U32(o.UnwrapOr(0))
  }

  function GetOptionU32(b: bytes): Parsed<Option<u32>> {
    var (present, b1) :- GetU8(b);
    var (value, b2) :- GetU32(b1);
    if present > 1 then Failure(InvalidFrame) else Success((if present == 1 then Some(value) else None, b2))
  }

  function ValidateTopic(topic: bytes): Result<Unit, ProtocolError> {
    if |topic| > MAX_TOPIC_NAME then Failure(TopicTooLarge)
    else if topic == [] || [0x5F, 0x5F] <= topic then Failure(InvalidTopic)
    else Success(Done)
  }

  /** A topic name has 1 to 249 bytes and does not start with two underscores; the error says which of the two fails. */
  lemma TopicIsValidIff(topic: bytes)
    ensures ValidateTopic(topic).Success? <==> 1 <= |topic| <= 249 && !(|topic| >= 2 && topic[0] == 0x5F && topic[1] == 0x5F)
    ensures ValidateTopic(topic) == Failure(TopicTooLarge) <==> |topic| > 249
    ensures ValidateTopic(topic).Failure? ==> ValidateTopic(topic).error in {TopicTooLarge, InvalidTopic}
  {
  }

  function ValidateSize(actual: nat, maximum: nat, error: ProtocolError): Result<Unit, ProtocolError> {
    if actual > maximum then Failure(error) else Success(Done)
  }

  /** Every field is read back as it was put, and what follows it is left. */
  lemma FieldsReadBack()
    ensures forall n: u8, rest: bytes {:trigger GetU8(U8(n) + rest)} :: GetU8(U8(n) + rest) == Success((n, rest))
    ensures forall n: u16, rest: bytes {:trigger GetU16(U16(n) + rest)} :: GetU16(U16(n) + rest) == Success((n, rest))
    ensures forall n: u32, rest: bytes {:trigger GetU32(U32(n) + rest)} :: GetU32(U32(n) + rest) == Success((n, rest))
    ensures forall n: u64, rest: bytes {:trigger GetU64(U64(n) + rest)} :: GetU64(U64(n) + rest) == Success((n, rest))
    ensures forall n: int, rest: bytes {:trigger GetI32(I32(n) + rest)} ::
              -0x8000_0000 <= n < 0x8000_0000 ==> GetI32(I32(n) + rest) == Success((n, rest))
    ensures forall a: bytes, rest: bytes {:trigger GetBytes(a + rest, |a|)} :: GetBytes(a + rest, |a|) == Success((a, rest))
    ensures forall n: u32 {:trigger GetU32(U32(n))} :: GetU32(U32(n)) == Success((n, []))
    ensures forall n: u64 {:trigger GetU64(U64(n))} :: GetU64(U64(n)) == Success((n, []))
    ensures forall a: bytes {:trigger GetBytes(a, |a|)} :: GetBytes(a, |a|) == Success((a, []))
  {
    ReadBack();
    forall n: u32 ensures GetU32(U32(n)) == Success((n, [])) { assert U32(n) + [] == U32(n); }
    forall n: u64 ensures GetU64(U64(n)) == Success((n, [])) { assert U64(n) + [] == U64(n); }
    forall a: bytes ensures GetBytes(a, |a|) == Success((a, [])) { assert a[..|a|] == a && a[|a|..] == []; }
    forall a: bytes, rest: bytes ensures GetBytes(a + rest, |a|) == Success((a, rest)) { SplitAppend(a, rest); }
  }

  /** And whatever is read as a field was put as one. */
  lemma FieldsBackwards()
    ensures forall b: bytes {:trigger GetU8(b)} :: GetU8(b).Success? ==> b == U8(GetU8(b).value.0) + GetU8(b).value.1
    ensures forall b: bytes {:trigger GetU16(b)} :: GetU16(b).Success? ==> b == U16(GetU16(b).value.0) + GetU16(b).value.1
    ensures forall b: bytes {:trigger GetU32(b)} :: GetU32(b).Success? ==> b == U32(GetU32(b).value.0) + GetU32(b).value.1
    ensures forall b: bytes {:trigger GetU64(b)} :: GetU64(b).Success? ==> b == U64(GetU64(b).value.0) + GetU64(b).value.1
    ensures forall b: bytes {:trigger GetI32(b)} :: GetI32(b).Success? ==> b == I32(GetI32(b).value.0) + GetI32(b).value.1
    ensures forall b: bytes, n: nat {:trigger GetBytes(b, n)} :: GetBytes(b, n).Success? ==>
              |GetBytes(b, n).value.0| == n && b == GetBytes(b, n).value.0 + GetBytes(b, n).value.1
    ensures forall b: bytes {:trigger GetString(b)} :: GetString(b).Success? ==>
              var (s, rest) := GetString(b).value; |s| < 0x1_0000 && ValidUtf8(s) && b == Str(s) + rest
  {
    ReadBackwards();
    forall b: bytes | GetString(b).Success?
      ensures var (s, rest) := GetString(b).value; |s| < 0x1_0000 && ValidUtf8(s) && b == Str(s) + rest
    {
      StringBackwards(b);
    }
  }

  /** What holds of every item a decoder can read holds of all it reads. */
  lemma {:induction false} AllHave<T>(count: nat, b: bytes, get: bytes -> Parsed<T>, holds: T -> bool)
    requires forall x: bytes :: get(x).Success? ==> holds(get(x).value.0)
    requires GetAll(count, b, get).Success?
    ensures forall x :: x in GetAll(count, b, get).value.0 ==> holds(x)
  {
    if count > 0 {
      AllHave(count - 1, get(b).value.1, get, holds);
    }
  }

  lemma GotWord(b: bytes)
    requires GetU32(b).Success?
    ensures b == U32(GetU32(b).value.0) + GetU32(b).value.1
  {
    WordIsPut(b);
  }

  lemma GotLong(b: bytes)
    requires GetU64(b).Success?
    ensures b == U64(GetU64(b).value.0) + GetU64(b).value.1
  {
    LongIsPut(b);
  }

  lemma NothingBehind(a: bytes)
    ensures a + [] == a
  {
  }

  lemma StringBackwards(b: bytes)
    requires GetString(b).Success?
    ensures var (s, rest) := GetString(b).value; |s| < 0x1_0000 && ValidUtf8(s) && b == Str(s) + rest
  {
    ShortIsPut(b);
    var (length, b1) := GetU16(b).value;
    var (s, rest) := GetBytes(b1, length).value;
    assert b1 == s + rest;
    Regroup(U16(length), s, rest);
  }

  /** An optional field: its flag, and its value or, without one, a number that is not used. */
  lemma OptionBackwards(b: bytes) returns (number: u32)
    requires GetOptionU32(b).Success?
    ensures var (o, rest) := GetOptionU32(b).value;
            (o.Some? ==> number == o.value) && b == U8(if o.Some? then 1 else 0) + (U32(number) + rest)
  {
    FieldsBackwards();
    number := GetU32(GetU8(b).value.1).value.0;
  }

  /** What a decoder reads `count` times, it reads as the encoder puts it. */
  lemma {:induction false} AllBackwards<T>(count: nat, b: bytes, get: bytes -> Parsed<T>, put: T --> bytes)
    requires forall x: bytes :: get(x).Success? ==> put.requires(get(x).value.0) && x == put(get(x).value.0) + get(x).value.1
    requires GetAll(count, b, get).Success?
    ensures var (items, rest) := GetAll(count, b, get).value;
            && |items| == count && (forall x :: x in items ==> put.requires(x))
            && b == PutAll(items, put) + rest
  {
    if count > 0 {
      var (item, b1) := get(b).value;
      AllBackwards(count - 1, b1, get, put);
      var (items, rest) := GetAll(count - 1, b1, get).value;
      assert ([item] + items)[1..] == items;
      Regroup(put(item), PutAll(items, put), rest);
    }
  }

  lemma CountReadBack(n: u32, rest: bytes)
    ensures GetU32(U32(n) + rest) == Success((n, rest))
  {
    FieldsReadBack();
  }

  lemma LengthReadBack(n: u16, rest: bytes)
    ensures GetU16(U16(n) + rest) == Success((n, rest))
  {
    ReadBack();
  }

  lemma Regroup(a: bytes, b: bytes, c: bytes)
    ensures a + b + c == a + (b + c)
  {
  }

  lemma StringOf(b: bytes, s: bytes, b1: bytes, b2: bytes)
    requires GetU16(b) == Success((|s|, b1)) && GetBytes(b1, |s|) == Success((s, b2)) && ValidUtf8(s)
    ensures GetString(b) == Success((s, b2))
  {
  }

  lemma StringReadBack(s: bytes, rest: bytes)
    requires |s| < 0x1_0000 && ValidUtf8(s)
    ensures GetString(Str(s) + rest) == Success((s, rest))
  {
    LengthReadBack(|s|, s + rest);
    SplitAppend(s, rest);
    Regroup(U16(|s|), s, rest);
    StringOf(U16(|s|) + (s + rest), s, s + rest, rest);
  }

  lemma OptionReadBack(o: Option<u32>, rest: bytes)
    ensures GetOptionU32(OptionU32(o) + rest) == Success((o, rest))
  {
    FieldsReadBack();
    assert OptionU32(o) + rest == U8(if o.Some? then 1 else 0) + (U32(o.UnwrapOr(0)) + rest);
  }

  // ---------------------------------------------------------------- repeated groups of fields

  function PutAll<T>(items: seq<T>, put: T --> bytes): bytes
    requires forall x :: x in items ==> put.requires(x)
  {
    if items == [] then [] else put(items[0]) + PutAll(items[1..], put)
  }

  function GetAll<T>(count: nat, b: bytes, get: bytes -> Parsed<T>): Parsed<seq<T>> {
    if count == 0 then Success(([], b))
    else
      var (item, b1) :- get(b);
      var (items, b2) :- GetAll(count - 1, b1, get);
      Success(([item] + items, b2))
  }

  lemma {:induction false} AllReadBack<T>(items: seq<T>, put: T --> bytes, get: bytes -> Parsed<T>, rest: bytes)
    requires forall x :: x in items ==> put.requires(x)
    requires forall x, more: bytes :: x in items ==> get(put(x) + more) == Success((x, more))
    ensures GetAll(|items|, PutAll(items, put) + rest, get) == Success((items, rest))
  {
    if items == [] {
      assert PutAll(items, put) + rest == rest;
    } else {
      var more := PutAll(items[1..], put) + rest;
      assert PutAll(items, put) + rest == put(items[0]) + more;
      AllReadBack(items[1..], put, get, rest);
      assert [items[0]] + items[1..] == items;
    }
  }

  function Prepend<T>(items: seq<T>, p: Parsed<seq<T>>): Parsed<seq<T>> {
    match p
    case Failure(error) => Failure(error)
    case Success((more, rest)) => Success((items + more, rest))
  }

  lemma PrependNothing<T>(p: Parsed<seq<T>>)
    ensures Prepend([], p) == p
  {
    if p.Success? {
      assert [] + p.value.0 == p.value.0;
    }
  }

  lemma PrependOne<T>(items: seq<T>, count: nat, b: bytes, get: bytes -> Parsed<T>)
    requires count > 0
    ensures Prepend(items, GetAll(count, b, get))
            == match get(b)
               case Failure(error) => Failure(error)
               case Success((item, rest)) => Prepend(items + [item], GetAll(count - 1, rest, get))
  {
    if get(b).Success? {
      var (item, rest) := get(b).value;
      var more := GetAll(count - 1, rest, get);
      if more.Success? {
        assert items + ([item] + more.value.0) == items + [item] + more.value.0;
      }
    }
  }

  /** The loop of an encoder. */
  method PutEach<T>(items: seq<T>, put: T --> bytes, buffer: Buffer)
    requires forall x :: x in items ==> put.requires(x)
    modifies buffer
    ensures buffer.data == old(buffer.data) + PutAll(items, put)
  {
    assert items[0..] == items;
    for i := 0 to |items|
      invariant buffer.data + PutAll(items[i..], put) == old(buffer.data) + PutAll(items, put)
    {
      assert items[i..][0] == items[i] && items[i..][1..] == items[i + 1..];
      buffer.Put(put(items[i]));
    }
    assert items[|items|..] == [];
  }

  /** The loop of a decoder: `count` items from the front of a buffer. */
  method GetEach<T>(count: nat, b: bytes, get: bytes -> Parsed<T>) returns (r: Parsed<seq<T>>)
    ensures r == GetAll(count, b, get)
  {
    var items, rest := [], b;
    PrependNothing(GetAll(count, b, get));
    for i := 0 to count
      invariant GetAll(count, b, get) == Prepend(items, GetAll(count - i, rest, get))
    {
      PrependOne(items, count - i, rest, get);
      var item := get(rest);
      if item.Failure? {
        return Failure(item.error);
      }
      items, rest := items + [item.value.0], item.value.1;
    }
    assert items + [] == items;
    return Success((items, rest));
  }
}
