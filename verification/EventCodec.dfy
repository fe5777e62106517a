/** How events travel through the streams: big integers are replaced by text with an `n` suffix before
    JSON.stringify, and revived from it by JSON.parse. */
module EventCodec {
  import opened Text

  /** A JavaScript value as JSON sees it, with big integers. */
  datatype Json =
    | Null
    | Bool(b: bool)
    | Number(text: string)
    | BigInt(n: int)
    | Str(s: string)
    | Arr(items: seq<Json>)
    | Obj(fields: seq<Field>)

  datatype Field = Field(key: string, value: Json)

  function IntText(n: int): string {
    if n < 0 then "-" + NatText(-n) else NatText(n)
  }

  /** /^-?\d+n$/ */
  predicate BigIntShape(s: string) {
    && |s| >= 2 && s[|s| - 1] == 'n'
    && var body := s[..|s| - 1];
       var digits := if body[0] == '-' then body[1..] else body;
       digits != [] && AllDigits(digits)
  }

  function ParseInt(body: string): int
    requires body != [] && AllDigits(if body[0] == '-' then body[1..] else body)
  {
    if body[0] == '-' then -(TextNat(body[1..]) as int) else TextNat(body)
  }

  /** bigIntReplacer over a whole tree. */
  function Replace(t: Json): Json
    decreases t, 0
  {
    match t
    case BigInt(n) => Str(IntText(n) + "n")
    case Arr(items) => Arr(ReplaceItems(items))
    case Obj(fields) => Obj(ReplaceFields(fields))
    case _ => t
  }

  function ReplaceItems(items: seq<Json>): seq<Json>
    decreases items, 1
  {
    if items == [] then [] else [Replace(items[0])] + ReplaceItems(items[1..])
  }

  function ReplaceFields(fields: seq<Field>): seq<Field>
    decreases fields, 1
  {
    if fields == [] then [] else [Field(fields[0].key, Replace(fields[0].value))] + ReplaceFields(fields[1..])
  }

  /** bigIntReviver over a whole tree. */
  function Revive(t: Json): Json
    decreases t, 0
  {
    match t
    case Str(s) => if BigIntShape(s) then BigInt(ParseInt(s[..|s| - 1])) else t
    case Arr(items) => Arr(ReviveItems(items))
    case Obj(fields) => Obj(ReviveFields(fields))
    case _ => t
  }

  function ReviveItems(items: seq<Json>): seq<Json>
    decreases items, 1
  {
    if items == [] then [] else [Revive(items[0])] + ReviveItems(items[1..])
  }

  function ReviveFields(fields: seq<Field>): seq<Field>
    decreases fields, 1
  {
    if fields == [] then [] else [Field(fields[0].key, Revive(fields[0].value))] + ReviveFields(fields[1..])
  }

  /** No string leaf looks like an encoded big integer. */
  predicate Unambiguous(t: Json)
    decreases t, 0
  {
    match t
    case Str(s) => !BigIntShape(s)
    case Arr(items) => UnambiguousItems(items)
    case Obj(fields) => UnambiguousFields(fields)
    case _ => true
  }

  predicate UnambiguousItems(items: seq<Json>)
    decreases items, 1
  {
    items == [] || (Unambiguous(items[0]) && UnambiguousItems(items[1..]))
  }

  predicate UnambiguousFields(fields: seq<Field>)
    decreases fields, 1
  {
    fields == [] || (Unambiguous(fields[0].value) && UnambiguousFields(fields[1..]))
  }

  /** JSON.stringify throws on a big integer. */
  predicate Serializable(t: Json)
    decreases t, 0
  {
    match t
    case BigInt(_) => false
    case Arr(items) => SerializableItems(items)
    case Obj(fields) => SerializableFields(fields)
    case _ => true
  }

  predicate SerializableItems(items: seq<Json>)
    decreases items, 1
  {
    items == [] || (Serializable(items[0]) && SerializableItems(items[1..]))
  }

  predicate SerializableFields(fields: seq<Field>)
    decreases fields, 1
  {
    fields == [] || (Serializable(fields[0].value) && SerializableFields(fields[1..]))
  }

  /** The shape, as an optional minus, at least one digit, and `n`. */
  lemma ShapeMeaning(s: string)
    ensures BigIntShape(s)
            <==> exists sign: string, digits: string ::
                   (sign == "" || sign == "-") && digits != [] && AllDigits(digits) && s == sign + digits + "n"
  {
    if BigIntShape(s) {
      var body := s[..|s| - 1];
      var sign := if body[0] == '-' then "-" else "";
      assert s == sign + body[|sign|..] + "n";
    }
    forall sign: string, digits: string
      | (sign == "" || sign == "-") && digits != [] && AllDigits(digits) && s == sign + digits + "n"
      ensures BigIntShape(s)
    {
      assert s[..|s| - 1] == sign + digits;
      assert sign == "-" ==> (sign + digits)[1..] == digits;
      assert sign == "" ==> sign + digits == digits;
    }
  }

  lemma BigIntText(n: int)
    ensures var s := IntText(n) + "n";
            BigIntShape(s) && s[..|s| - 1] == IntText(n) && ParseInt(IntText(n)) == n
  {
    var s := IntText(n) + "n";
    assert s[..|s| - 1] == IntText(n);
    if n < 0 {
      ParsePrint(-n);
      assert IntText(n)[1..] == NatText(-n);
    } else {
      ParsePrint(n);
    }
  }

  lemma ReviveString(s: string)
    ensures Revive(Str(s)) == Str(s) <==> !BigIntShape(s)
  {
    hide BigIntShape, ParseInt;
  }

  lemma ReviveNumber(n: int)
    ensures Revive(Replace(BigInt(n))) == BigInt(n)
  {
    BigIntText(n);
    hide BigIntShape, ParseInt, IntText;
  }

  /** Reviving the replaced form of an event gives back the same event if and only if no string in it
      has the shape of an encoded big integer. */
  lemma {:induction false} RoundTrip(t: Json)
    ensures Revive(Replace(t)) == t <==> Unambiguous(t)
    decreases t, 0
  {
    hide BigIntShape, ParseInt, IntText;
    match t
    case Str(s) => ReviveString(s);
    case BigInt(n) => ReviveNumber(n);
    case Arr(items) => RoundTripItems(items);
    case Obj(fields) => RoundTripFields(fields);
    case _ =>
  }

  lemma {:induction false} RoundTripItems(items: seq<Json>)
    ensures ReviveItems(ReplaceItems(items)) == items <==> UnambiguousItems(items)
    decreases items, 1
  {
    if items != [] {
      RoundTrip(items[0]);
      RoundTripItems(items[1..]);
      var r := ReplaceItems(items);
      assert r[1..] == ReplaceItems(items[1..]);
      assert items == [items[0]] + items[1..];
      var v := ReviveItems(r);
      assert v[0] == Revive(Replace(items[0])) && v[1..] == ReviveItems(r[1..]);
    }
  }

  lemma {:induction false} RoundTripFields(fields: seq<Field>)
    ensures ReviveFields(ReplaceFields(fields)) == fields <==> UnambiguousFields(fields)
    decreases fields, 1
  {
    if fields != [] {
      RoundTrip(fields[0].value);
      RoundTripFields(fields[1..]);
      var r := ReplaceFields(fields);
      assert r[1..] == ReplaceFields(fields[1..]);
      assert fields == [fields[0]] + fields[1..];
      var v := ReviveFields(r);
      assert v[0] == Field(fields[0].key, Revive(Replace(fields[0].value))) && v[1..] == ReviveFields(r[1..]);
    }
  }

  /** The replaced form can always be written as JSON, and replacing it again changes nothing. */
  lemma {:induction false} ReplacedIsPlain(t: Json)
    ensures Serializable(Replace(t)) && Replace(Replace(t)) == Replace(t)
    decreases t, 0
  {
    match t
    case Arr(items) => ReplacedItems(items);
    case Obj(fields) => ReplacedFields(fields);
    case _ =>
  }

  lemma {:induction false} ReplacedItems(items: seq<Json>)
    ensures SerializableItems(ReplaceItems(items)) && ReplaceItems(ReplaceItems(items)) == ReplaceItems(items)
    decreases items, 1
  {
    if items != [] {
      ReplacedIsPlain(items[0]);
      ReplacedItems(items[1..]);
      assert ReplaceItems(items)[1..] == ReplaceItems(items[1..]);
    }
  }

  lemma {:induction false} ReplacedFields(fields: seq<Field>)
    ensures SerializableFields(ReplaceFields(fields)) && ReplaceFields(ReplaceFields(fields)) == ReplaceFields(fields)
    decreases fields, 1
  {
    if fields != [] {
      ReplacedIsPlain(fields[0].value);
      ReplacedFields(fields[1..]);
      assert ReplaceFields(fields)[1..] == ReplaceFields(fields[1..]);
    }
  }

  /** A token named "5n" arrives as a number. */
  lemma TokenNameRevived()
    ensures Revive(Replace(Str("5n"))) == BigInt(5)
  {
    var s := "5n";
    assert s[..|s| - 1] == "5" && "5"[..0] == [];
    assert TextNat([]) == 0;
    assert TextNat("5") == 5;
  }
}
