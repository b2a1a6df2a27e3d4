/**
 Caching a struct in a Redis hash: every field is printed to a string under its name, and a fresh
 struct of the same type is filled by parsing the strings again. Reflection is modelled by a list
 of field names and a list of field values that carry their kind.
 */
module RedisCodec {
  import opened Options

  datatype Kind = StringKind | IntKind | BoolKind

  datatype Scalar = Str(s: string) | Int(n: int) | Bool(b: bool)

  /** A value of a type that is printed and never parsed: the zero value, or another one with its
      printed form. */
  type Foreign = Option<string>

  /** A struct field: a plain value, a pointer to one, a gorm.DeletedAt, another struct, a value of
      an unsupported kind, or a pointer to a value of either (`isStruct`). `zero` is the printed
      form of the type's zero value. */
  datatype Field =
    | Plain(v: Scalar)
    | Pointer(kind: Kind, target: Option<Scalar>)
    | DeletedAt(time: Option<string>)
    | Struct(zero: string, value: Foreign)
    | Unsupported(zero: string, value: Foreign)
    | ForeignPointer(isStruct: bool, zero: string, foreign: Option<Foreign>)

  const MIN_INT := -0x8000_0000_0000_0000
  const MAX_INT := 0x7fff_ffff_ffff_ffff

  type Hash = map<string, string>

  // ---------------------------------------------------------------- decimal numbers

  function DigitChar(d: nat): char
    requires d < 10
  {
    '0' + d as char
  }

  /** strconv.FormatInt in base 10. */
  function FormatNat(n: nat): string {
    if n < 10 then [DigitChar(n)] else FormatNat(n / 10) + [DigitChar(n % 10)]
  }

  function FormatInt(n: int): string {
    if n < 0 then "-" + FormatNat(-n) else FormatNat(n)
  }

  predicate IsDigit(c: char) {
    '0' <= c <= '9'
  }

  function ParseDigits(s: string): Option<nat> {
    if |s| == 0 || !IsDigit(s[|s| - 1]) then None
    else
      var d := s[|s| - 1] as int - '0' as int;
      if |s| == 1 then Some(d)
      else match ParseDigits(s[..|s| - 1])
        case None => None
        case Some(high) => Some(10 * high + d)
  }

  /** strconv.ParseInt in base 10, 64 bits: an optional sign, at least one digit, in range. */
  function ParseInt(s: string): Option<int> {
    if |s| == 0 then None
    else
      var magnitude := ParseDigits(if s[0] == '-' || s[0] == '+' then s[1..] else s);
      if magnitude.None? then None
      else
        var m: int := magnitude.value;
        var n := if s[0] == '-' then -m else m;
        if MIN_INT <= n <= MAX_INT then Some(n) else None
  }

  function FormatBool(b: bool): string {
    if b then "true" else "false"
  }

  /** strconv.ParseBool. */
  function ParseBool(s: string): Option<bool> {
    if s in {"1", "t", "T", "true", "TRUE", "True"} then Some(true)
    else if s in {"0", "f", "F", "false", "FALSE", "False"} then Some(false)
    else None
  }

  lemma {:induction false} NatRoundTrip(n: nat)
    ensures ParseDigits(FormatNat(n)) == Some(n) && |FormatNat(n)| > 0
    ensures FormatNat(n)[0] != '-' && FormatNat(n)[0] != '+'
  {
    var s := FormatNat(n);
    if n >= 10 {
      NatRoundTrip(n / 10);
      assert s[..|s| - 1] == FormatNat(n / 10);
    }
  }

  /** Printing and parsing agree on the whole 64-bit range, and on nothing beyond it. */
  lemma IntRoundTrip(n: int)
    ensures ParseInt(FormatInt(n)) == Some(n) <==> MIN_INT <= n <= MAX_INT
    ensures FormatInt(n) != ""
  {
    NatRoundTrip(if n < 0 then -n else n);
    if n < 0 {
      assert FormatInt(n)[1..] == FormatNat(-n);
    }
  }

  // ---------------------------------------------------------------- printing

  function Show(v: Scalar): string {
    match v
    case Str(s) => s
    case Int(n) => FormatInt(n)
    case Bool(b) => FormatBool(b)
  }

  function ShowForeign(zero: string, value: Foreign): string {
    if value.Some? then value.value else zero
  }

  function Printed(f: Field): Option<string> {
    match f
    case DeletedAt(_) => None
    case Pointer(_, None) => Some("")
    case Pointer(_, Some(v)) => Some(Show(v))
    case Plain(v) => Some(Show(v))
    case Struct(zero, value) => Some(ShowForeign(zero, value))
    case Unsupported(zero, value) => Some(ShowForeign(zero, value))
    case ForeignPointer(_, _, None) => Some("")
    case ForeignPointer(_, zero, Some(value)) => Some(ShowForeign(zero, value))
  }

  /** The hash after the first `count` fields. */
  function EncodeUpTo(names: seq<string>, fields: seq<Field>, count: nat): Hash
    requires |names| == |fields| && count <= |fields|
  {
    if count == 0 then map[]
    else
      var data := EncodeUpTo(names, fields, count - 1);
      var printed := Printed(fields[count - 1]);
      if printed.None? then data else data[names[count - 1] := printed.value]
  }

  function Encode(names: seq<string>, fields: seq<Field>): Hash
    requires |names| == |fields|
  {
    EncodeUpTo(names, fields, |fields|)
  }

  /** RedisHSetObj. */
  method HSetObj(names: seq<string>, fields: seq<Field>) returns (data: Hash)
    requires |names| == |fields|
    ensures data == Encode(names, fields)
  {
    data := map[];
    var i := 0;
    while i < |fields|
      invariant 0 <= i <= |fields| && data == EncodeUpTo(names, fields, i)
    {
      match fields[i] {
        case DeletedAt(_) =>
        case Pointer(_, None) => data := data[names[i] := ""];
        case Pointer(_, Some(v)) => data := data[names[i] := Show(v)];
        case Plain(v) => data := data[names[i] := Show(v)];
        case Struct(zero, value) => data := data[names[i] := ShowForeign(zero, value)];
        case Unsupported(zero, value) => data := data[names[i] := ShowForeign(zero, value)];
        case ForeignPointer(_, _, None) => data := data[names[i] := ""];
        case ForeignPointer(_, zero, Some(value)) => data := data[names[i] := ShowForeign(zero, value)];
      }
      i := i + 1;
    }
  }

  /** Numbers are printed in digits, without leading zeros. */
  lemma {:induction false} DigitsMeaning(n: nat)
    ensures var s := FormatNat(n);
      |s| > 0 && (forall c :: c in s ==> '0' <= c <= '9') && (s[0] == '0' <==> n == 0) && (|s| == 1 <==> n < 10)
  {
    if n >= 10 {
      DigitsMeaning(n / 10);
    }
  }

  /** The text a field is cached as. */
  lemma PrintedMeaning(f: Field)
    ensures Printed(f) ==
      match f
      case Plain(Str(s)) => Some(s)
      case Plain(Bool(b)) => Some(if b then "true" else "false")
      case Plain(Int(n)) => Some(if n < 0 then "-" + FormatNat(-n) else FormatNat(n))
      case Pointer(_, Some(v)) => Printed(Plain(v))
      case Pointer(_, None) => Some("")
      case ForeignPointer(_, _, None) => Some("")
      case DeletedAt(_) => None
      case _ => Printed(f)
  {
  }

  // ---------------------------------------------------------------- parsing

  function KindOf(v: Scalar): Kind {
    match v
    case Str(_) => StringKind
    case Int(_) => IntKind
    case Bool(_) => BoolKind
  }

  function ZeroScalar(kind: Kind): Scalar {
    match kind
    case StringKind => Str("")
    case IntKind => Int(0)
    case BoolKind => Bool(false)
  }

  function ParseScalar(kind: Kind, value: string): Option<Scalar> {
    match kind
    case StringKind => Some(Str(value))
    case IntKind => (var n := ParseInt(value); if n.Some? then Some(Int(n.value)) else None)
    case BoolKind => (var b := ParseBool(value); if b.Some? then Some(Bool(b.value)) else None)
  }

  /** What one field becomes when the hash has a value for it, and whether that succeeds. A nil
      pointer is allocated before its value is parsed. Another struct is passed over in silence. */
  function Assigned(f: Field, value: string, parseTime: string -> Option<string>): (Field, bool) {
    match f
    case Plain(v) =>
      var parsed := ParseScalar(KindOf(v), value);
      if parsed.Some? then (Plain(parsed.value), true) else (f, false)
    case Pointer(kind, target) =>
      if value == "" then (f, true)
      else
        var parsed := ParseScalar(kind, value);
        if parsed.Some? then (Pointer(kind, parsed), true)
        else (Pointer(kind, if target.Some? then target else Some(ZeroScalar(kind))), false)
    case DeletedAt(_) =>
      if value == "" then (f, true)
      else
        var parsed := parseTime(value);
        if parsed.Some? then (DeletedAt(parsed), true) else (f, false)
    case Struct(_, _) => (f, true)
    case Unsupported(_, _) => (f, false)
    case ForeignPointer(isStruct, zero, foreign) =>
      if value == "" then (f, true)
      else (ForeignPointer(isStruct, zero, if foreign.Some? then foreign else Some(None)), isStruct)
  }

  /** The object after the first `count` fields; the first failure stops everything. */
  function DecodeUpTo(names: seq<string>, fields: seq<Field>, result: Hash, parseTime: string -> Option<string>,
                      count: nat): (r: (seq<Field>, bool))
    requires |names| == |fields| && count <= |fields|
    ensures |r.0| == |fields| && forall i :: count <= i < |fields| ==> r.0[i] == fields[i]
  {
    if count == 0 then (fields, true)
    else
      var (done, ok) := DecodeUpTo(names, fields, result, parseTime, count - 1);
      var i := count - 1;
      if !ok || names[i] !in result then (done, ok)
      else
        var (f, fine) := Assigned(fields[i], result[names[i]], parseTime);
        (done[i := f], fine)
  }

  /** An empty hash means the key is not there. */
  function Decode(names: seq<string>, fields: seq<Field>, result: Hash,
                  parseTime: string -> Option<string>): (seq<Field>, bool)
    requires |names| == |fields|
  {
    if |result| == 0 then (fields, false) else DecodeUpTo(names, fields, result, parseTime, |fields|)
  }

  /** RedisHGetObj, setting the fields of the object in place. */
  method HGetObj(names: seq<string>, obj: array<Field>, result: Hash,
                 parseTime: string -> Option<string>) returns (ok: bool)
    requires |names| == obj.Length
    modifies obj
    ensures (obj[..], ok) == Decode(names, old(obj[..]), result, parseTime)
  {
    if |result| == 0 {
      return false;
    }
    ghost var before := obj[..];
    var i := 0;
    while i < obj.Length
      invariant 0 <= i <= obj.Length && (obj[..], true) == DecodeUpTo(names, before, result, parseTime, i)
    {
      if names[i] in result {
        var (f, fine) := Assigned(obj[i], result[names[i]], parseTime);
        assert obj[..][i] == before[i];
        ghost var done := obj[..];
        obj[i] := f;
        assert obj[..] == done[i := f];
        if !fine {
          StopsAt(names, before, result, parseTime, i + 1, obj.Length);
          return false;
        }
      }
      i := i + 1;
    }
    ok := true;
  }

  lemma {:induction false} StopsAt(names: seq<string>, fields: seq<Field>, result: Hash,
                                   parseTime: string -> Option<string>,
                                   count: nat, more: nat)
    requires |names| == |fields| && count <= more <= |fields|
    requires !DecodeUpTo(names, fields, result, parseTime, count).1
    ensures DecodeUpTo(names, fields, result, parseTime, more) == DecodeUpTo(names, fields, result, parseTime, count)
    decreases more
  {
    if count < more {
      StopsAt(names, fields, result, parseTime, count, more - 1);
    }
  }

  // ---------------------------------------------------------------- the round trip

  predicate Distinct(names: seq<string>) {
    forall i, j :: 0 <= i < j < |names| ==> names[i] != names[j]
  }

  predicate IntInRange(v: Scalar) {
    v.Int? ==> MIN_INT <= v.n <= MAX_INT
  }

  /** A field as Go's types allow it: 64-bit integers, pointers to their own kind. */
  predicate Typed(f: Field) {
    match f
    case Plain(v) => IntInRange(v)
    case Pointer(kind, Some(v)) => KindOf(v) == kind && IntInRange(v)
    case _ => true
  }

  predicate AllTyped(fields: seq<Field>) {
    forall i :: 0 <= i < |fields| ==> Typed(fields[i])
  }

  /** The field of a fresh object. */
  function Fresh(f: Field): Field {
    match f
    case Plain(v) => Plain(ZeroScalar(KindOf(v)))
    case Pointer(kind, _) => Pointer(kind, None)
    case DeletedAt(_) => DeletedAt(None)
    case Struct(zero, _) => Struct(zero, None)
    case Unsupported(zero, _) => Unsupported(zero, None)
    case ForeignPointer(isStruct, zero, _) => ForeignPointer(isStruct, zero, None)
  }

  function FreshObject(fields: seq<Field>): (r: seq<Field>)
    ensures |r| == |fields| && forall i :: 0 <= i < |fields| ==> r[i] == Fresh(fields[i])
  {
    seq(|fields|, i requires 0 <= i < |fields| => Fresh(fields[i]))
  }

  /** What should come back: everything but DeletedAt. */
  function Remembered(fields: seq<Field>): (r: seq<Field>)
    ensures |r| == |fields|
    ensures forall i :: 0 <= i < |fields| ==> r[i] == if fields[i].DeletedAt? then DeletedAt(None) else fields[i]
  {
    seq(|fields|, i requires 0 <= i < |fields| => if fields[i].DeletedAt? then DeletedAt(None) else fields[i])
  }

  /** What decoding gets past: no value of an unsupported kind, and no pointer to one unless it is
      nil or prints as nothing. */
  predicate Accepted(f: Field) {
    match f
    case Unsupported(_, _) => false
    case ForeignPointer(isStruct, zero, Some(value)) => isStruct || ShowForeign(zero, value) == ""
    case _ => true
  }

  /** What comes back: every string, integer and bool, and pointers to them except to an empty
      string; of other structs the zero value, and of pointers to other types nil and, if it prints
      as something, a zero struct. */
  predicate Survives(f: Field) {
    match f
    case Pointer(_, Some(Str(s))) => s != ""
    case Struct(_, value) => value.None?
    case Unsupported(_, _) => false
    case ForeignPointer(isStruct, zero, Some(value)) => isStruct && value.None? && zero != ""
    case _ => true
  }

  lemma {:induction false} EncodeMeaning(names: seq<string>, fields: seq<Field>, count: nat)
    requires |names| == |fields| && count <= |fields| && Distinct(names)
    ensures var data := EncodeUpTo(names, fields, count);
      && (forall i :: 0 <= i < count ==>
            (names[i] in data <==> !fields[i].DeletedAt?)
            && (names[i] in data ==> Some(data[names[i]]) == Printed(fields[i])))
      && (forall i :: count <= i < |names| ==> names[i] !in data)
      && (|data| == 0 <==> forall i :: 0 <= i < count ==> fields[i].DeletedAt?)
  {
    if count > 0 {
      EncodeMeaning(names, fields, count - 1);
    }
  }

  /** One field: what was printed parses back into a fresh field exactly if the field survives. */
  lemma FieldRoundTrip(f: Field, parseTime: string -> Option<string>)
    requires Typed(f) && !f.DeletedAt?
    ensures Assigned(Fresh(f), Printed(f).value, parseTime) == (f, true) <==> Survives(f)
    ensures Assigned(Fresh(f), Printed(f).value, parseTime).1 <==> Accepted(f)
  {
    if f.Plain? && f.v.Int? {
      IntRoundTrip(f.v.n);
    }
    if f.Pointer? && f.target.Some? && f.target.value.Int? {
      IntRoundTrip(f.target.value.n);
    }
  }

  /** The hash holds the printed form of every field but DeletedAt. */
  predicate Holds(data: Hash, names: seq<string>, fields: seq<Field>)
    requires |names| == |fields|
  {
    forall i :: 0 <= i < |fields| ==>
      (names[i] in data <==> !fields[i].DeletedAt?)
      && (names[i] in data ==> Some(data[names[i]]) == Printed(fields[i]))
  }

  function Reread(f: Field, parseTime: string -> Option<string>): Field {
    if f.DeletedAt? then DeletedAt(None) else Assigned(Fresh(f), Printed(f).value, parseTime).0
  }

  lemma {:induction false} DecodeMeaning(data: Hash, names: seq<string>, fields: seq<Field>,
                                         parseTime: string -> Option<string>, count: nat)
    requires |names| == |fields| && count <= |fields| && AllTyped(fields) && Holds(data, names, fields)
    ensures var (done, ok) := DecodeUpTo(names, FreshObject(fields), data, parseTime, count);
      && (ok <==> forall i :: 0 <= i < count ==> Accepted(fields[i]))
      && (ok ==> forall i :: 0 <= i < count ==> done[i] == Reread(fields[i], parseTime))
  {
    if count > 0 {
      DecodeMeaning(data, names, fields, parseTime, count - 1);
      var f := fields[count - 1];
      assert Typed(f);
      if !f.DeletedAt? {
        FieldRoundTrip(f, parseTime);
        assert data[names[count - 1]] == Printed(f).value;
      }
    }
  }

  /** Decoding an encoded object into a fresh one gives back every field but DeletedAt without an
      error if and only if some field is not a DeletedAt and every one survives; and it reports an
      error if and only if all are DeletedAt or some field is not accepted, so that any other loss
      is silent. */
  lemma RoundTrip(names: seq<string>, fields: seq<Field>, parseTime: string -> Option<string>)
    requires |names| == |fields| && Distinct(names) && AllTyped(fields)
    ensures Decode(names, FreshObject(fields), Encode(names, fields), parseTime) == (Remembered(fields), true)
      <==> (exists i :: 0 <= i < |fields| && !fields[i].DeletedAt?)
           && forall i :: 0 <= i < |fields| ==> Survives(fields[i])
    ensures Decode(names, FreshObject(fields), Encode(names, fields), parseTime).1
      <==> (exists i :: 0 <= i < |fields| && !fields[i].DeletedAt?)
           && forall i :: 0 <= i < |fields| ==> Accepted(fields[i])
  {
    EncodeMeaning(names, fields, |fields|);
    var data := Encode(names, fields);
    DecodeMeaning(data, names, fields, parseTime, |fields|);
    var (done, ok) := DecodeUpTo(names, FreshObject(fields), data, parseTime, |fields|);
    forall i | 0 <= i < |fields| && !fields[i].DeletedAt?
      ensures Accepted(fields[i]) ==> (Reread(fields[i], parseTime) == fields[i] <==> Survives(fields[i]))
    {
      FieldRoundTrip(fields[i], parseTime);
    }
    if ok && forall i :: 0 <= i < |fields| ==> Survives(fields[i]) {
      assert done == Remembered(fields);
    }
  }
}
