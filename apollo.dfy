/**
 * apollo.go: the binding engine that keeps the fields of a caller's struct in step with remote
 * configuration keys. Struct tags bind a field to a remote key (apollo_key, the field name when
 * absent), to a callback method (apollo_callback) and to a default (apollo_default); a batch of
 * changed keys is written into the bound fields, and then every callback named by a changed field
 * is called once with a copy of the struct as it was before the batch.
 *
 * Reflection becomes data: the struct type is a GoValues.StructType, the caller's struct a Record
 * object whose field values the updater overwrites in place. A callback call is logged in the
 * Record as the name and the argument; what the callback's own body does is not modelled.
 */
module Apollo {
  import opened Options
  import opened Strconv
  import opened GoValues
  import opened Common

  /** fieldMeta: the binding of one struct field. */
  datatype FieldMeta = FieldMeta(fieldName: string, apolloKey: string, apolloCallback: string, apolloDefault: string)

  /** The errors the binding engine returns. */
  datatype Error =
    | InvalidConfig                       // "invalid config"
    | InvalidCallback(callback: string)   // "invalid callback: %s"
    | MethodNotExist                      // "method not exist"
    | Panic(callback: string)             // "panic: %v", from the recover in callMethod
    | FieldCannotBeSet                    // "field cannot be set"
    | Parse(numError: NumError)           // the *strconv.NumError of a failed conversion
    | UnsupportedType(kind: string)       // "unsupported type: %s"
    | AssignPanic(fieldName: string)      // the panic of reflect.Value.Set on a field of a defined type

  // ---------------------------------------------------------------------------------------------
  // parserConfig: the table from remote key to binding.

  /** Fields whose name starts with an ASCII lower-case letter are skipped. */
  predicate Bound(f: FieldDecl) {
    !IsLower(f.name)
  }

  /** The remote key of a field: its apollo_key tag, or its name when the tag is empty. */
  function RemoteKey(f: FieldDecl): (k: string)
    ensures TagGet(f.tags, "apollo_key") != "" ==> k == TagGet(f.tags, "apollo_key")
    ensures TagGet(f.tags, "apollo_key") == "" ==> k == f.name
  {
    var key := TagGet(f.tags, "apollo_key");
    if key == "" then f.name else key
  }

  function Callback(f: FieldDecl): string {
    TagGet(f.tags, "apollo_callback")
  }

  /** The binding parserConfig records for a field: its name, its key, and the other two tags verbatim. */
  function Meta(f: FieldDecl): FieldMeta {
    FieldMeta(f.name, RemoteKey(f), Callback(f), TagGet(f.tags, "apollo_default"))
  }

  /**
   * What parserConfig leaves in fieldsMeta: an entry for each bound field under its remote key,
   * fields taken in declaration order, so that a later field replaces an earlier one.
   */
  function Table(fields: seq<FieldDecl>): map<string, FieldMeta> {
    if fields == [] then map[]
    else
      var m := Table(fields[..|fields| - 1]);
      var f := fields[|fields| - 1];
      if Bound(f) then m[RemoteKey(f) := Meta(f)] else m
  }

  /** Every bound field has an entry under its remote key, and every entry is the binding of a bound field. */
  lemma {:induction false} TableSpec(fields: seq<FieldDecl>)
    ensures forall i :: 0 <= i < |fields| && Bound(fields[i]) ==> RemoteKey(fields[i]) in Table(fields)
    ensures forall k :: k in Table(fields) ==> exists i :: (0 <= i < |fields| && Bound(fields[i])
      && RemoteKey(fields[i]) == k && Table(fields)[k] == Meta(fields[i]))
  {
    if fields != [] {
      var init := fields[..|fields| - 1];
      TableSpec(init);
      assert forall i :: 0 <= i < |init| ==> init[i] == fields[i];
    }
  }

  /** A callback the type as handed over does not have; an empty tag names no callback. */
  predicate BadCallback(f: FieldDecl, methods: set<string>) {
    Bound(f) && Callback(f) != "" && Callback(f) !in methods
  }

  /** The callback parserConfig stops at: that of the first bound field naming a missing method. */
  function FirstBadCallback(fields: seq<FieldDecl>, methods: set<string>): Option<string> {
    if fields == [] then None
    else match FirstBadCallback(fields[..|fields| - 1], methods)
      case Some(c) => Some(c)
      case None =>
        if BadCallback(fields[|fields| - 1], methods) then Some(Callback(fields[|fields| - 1])) else None
  }

  /**
   * parserConfig passes exactly when no bound field names a missing callback, and otherwise
   * reports the callback of the first bound field that does.
   */
  lemma {:induction false} FirstBadSpec(fields: seq<FieldDecl>, methods: set<string>)
    ensures FirstBadCallback(fields, methods).None? <==> forall i :: 0 <= i < |fields| ==> !BadCallback(fields[i], methods)
    ensures FirstBadCallback(fields, methods).Some? ==> exists i :: (0 <= i < |fields| && BadCallback(fields[i], methods)
      && Callback(fields[i]) == FirstBadCallback(fields, methods).value
      && forall j :: 0 <= j < i ==> !BadCallback(fields[j], methods))
  {
    if fields != [] {
      var init := fields[..|fields| - 1];
      FirstBadSpec(init, methods);
      assert forall i :: 0 <= i < |init| ==> init[i] == fields[i];
    }
  }

  /** Once a prefix of the fields has a bad callback, the whole sequence reports that one. */
  lemma {:induction false} FirstBadPrefix(fields: seq<FieldDecl>, n: nat, methods: set<string>)
    requires n <= |fields| && FirstBadCallback(fields[..n], methods).Some?
    ensures FirstBadCallback(fields, methods) == FirstBadCallback(fields[..n], methods)
    decreases |fields| - n
  {
    if n < |fields| {
      var init := fields[..|fields| - 1];
      assert init[..n] == fields[..n];
      FirstBadPrefix(init, n, methods);
    } else {
      assert fields[..n] == fields;
    }
  }

  /** The table and the first bad callback of one more field, in terms of those of the fields before it. */
  lemma TableSnoc(fields: seq<FieldDecl>, i: nat, methods: set<string>)
    requires i < |fields|
    ensures var f := fields[i];
      Table(fields[..i + 1]) == if Bound(f) then Table(fields[..i])[RemoteKey(f) := Meta(f)] else Table(fields[..i])
    ensures FirstBadCallback(fields[..i], methods).None? ==>
      FirstBadCallback(fields[..i + 1], methods) == if BadCallback(fields[i], methods) then Some(Callback(fields[i])) else None
  {
    var next := fields[..i + 1];
    assert next[..i] == fields[..i] && next[i] == fields[i];
  }

  lemma UnionUpdate(a: map<string, FieldMeta>, b: map<string, FieldMeta>, k: string, v: FieldMeta)
    ensures (a + b)[k := v] == a + b[k := v]
  {
  }

  /** When two bound fields share a remote key, the entry is that of the later one. */
  lemma {:induction false} TableLast(fields: seq<FieldDecl>, i: nat)
    requires i < |fields| && Bound(fields[i])
    requires forall j :: i < j < |fields| && Bound(fields[j]) ==> RemoteKey(fields[j]) != RemoteKey(fields[i])
    ensures RemoteKey(fields[i]) in Table(fields) && Table(fields)[RemoteKey(fields[i])] == Meta(fields[i])
  {
    var n := |fields|;
    if i < n - 1 {
      var init := fields[..n - 1];
      assert init[i] == fields[i];
      forall j | i < j < |init| && Bound(init[j])
        ensures RemoteKey(init[j]) != RemoteKey(init[i])
      {
        assert init[j] == fields[j];
      }
      TableLast(init, i);
    }
  }

  /**
   * The entries of a table name distinct fields of the type: every entry's field exists, and two
   * keys never bind the same field.
   */
  predicate MetaSound(fields: seq<FieldDecl>, meta: map<string, FieldMeta>) {
    && (forall k :: k in meta ==> FieldIndex(fields, meta[k].fieldName).Some?)
    && (forall k1, k2 :: k1 in meta && k2 in meta && k1 != k2 ==> meta[k1].fieldName != meta[k2].fieldName)
  }

  /** Every entry of the table of a struct type binds a field of the type. */
  lemma TableFieldsExist(t: StructType)
    requires t.WellFormed()
    ensures forall k :: k in Table(t.fields) ==> FieldIndex(t.fields, Table(t.fields)[k].fieldName).Some?
  {
    var m := Table(t.fields);
    TableSpec(t.fields);
    forall k | k in m
      ensures FieldIndex(t.fields, m[k].fieldName).Some?
    {
      var i :| 0 <= i < |t.fields| && Bound(t.fields[i]) && RemoteKey(t.fields[i]) == k && m[k] == Meta(t.fields[i]);
      FieldIndexAt(t.fields, i);
    }
  }

  /** Two keys of the table of a struct type bind two different fields: a field has one remote key. */
  lemma TableInjective(t: StructType)
    requires t.WellFormed()
    ensures forall k1, k2 :: k1 in Table(t.fields) && k2 in Table(t.fields) && k1 != k2 ==>
      Table(t.fields)[k1].fieldName != Table(t.fields)[k2].fieldName
  {
    var m := Table(t.fields);
    TableSpec(t.fields);
    forall k1, k2 | k1 in m && k2 in m && k1 != k2
      ensures m[k1].fieldName != m[k2].fieldName
    {
      var i1 :| 0 <= i1 < |t.fields| && Bound(t.fields[i1]) && RemoteKey(t.fields[i1]) == k1 && m[k1] == Meta(t.fields[i1]);
      var i2 :| 0 <= i2 < |t.fields| && Bound(t.fields[i2]) && RemoteKey(t.fields[i2]) == k2 && m[k2] == Meta(t.fields[i2]);
      assert i1 != i2;
    }
  }

  /** The table of a struct type is sound. */
  lemma TableSound(t: StructType)
    requires t.WellFormed()
    ensures MetaSound(t.fields, Table(t.fields))
  {
    TableFieldsExist(t);
    TableInjective(t);
  }

  /** Once parserConfig has passed every field, each callback in the table is empty or a method of the type. */
  lemma TableCallbacks(fields: seq<FieldDecl>, methods: set<string>)
    requires FirstBadCallback(fields, methods).None?
    ensures forall k :: k in Table(fields) ==>
      Table(fields)[k].apolloCallback == "" || Table(fields)[k].apolloCallback in methods
  {
    var m := Table(fields);
    TableSpec(fields);
    FirstBadSpec(fields, methods);
    forall k | k in m
      ensures m[k].apolloCallback == "" || m[k].apolloCallback in methods
    {
      var i :| 0 <= i < |fields| && Bound(fields[i]) && RemoteKey(fields[i]) == k && m[k] == Meta(fields[i]);
      assert !BadCallback(fields[i], methods);
    }
  }

  // ---------------------------------------------------------------------------------------------
  // setValue: from a raw string to a field value.

  /** A float conversion, strconv.ParseFloat(s, bits) followed by the narrowing to the field's width. */
  type FloatParser = (string, nat) -> Result<real, NumError>

  function FromInt(r: Result<int, NumError>): Result<Value, Error> {
    match r
    case Ok(i) => Ok(IntV(i))
    case Err(e) => Err(Parse(e))
  }

  function FromUint(r: Result<nat, NumError>): Result<Value, Error> {
    match r
    case Ok(n) => Ok(UintV(n))
    case Err(e) => Err(Parse(e))
  }

  function FromBool(r: Result<bool, NumError>): Result<Value, Error> {
    match r
    case Ok(b) => Ok(BoolV(b))
    case Err(e) => Err(Parse(e))
  }

  function FromFloat(r: Result<real, NumError>): Result<Value, Error> {
    match r
    case Ok(x) => Ok(FloatV(x))
    case Err(e) => Err(Parse(e))
  }

  /** The strconv function a signed field of the kind is parsed with. */
  function SignedParser(kind: Kind): string {
    if kind == Int then "Atoi" else "ParseInt"
  }

  /** A signed integer field: base 10 at the width of its kind; Atoi for int. */
  function CoerceSigned(kind: Kind, num: string): (r: Result<Value, Error>)
    requires kind.IsSigned()
    ensures r.Ok? ==> HasKind(r.value, kind)
    ensures r.Err? ==> r.error.Parse?
  {
    FromInt(ParseIntAs(SignedParser(kind), num, kind.Bits()))
  }

  /** The parser a signed field goes through: strconv.Atoi for int, strconv.ParseInt otherwise. */
  lemma CoerceSignedParser(kind: Kind, num: string)
    requires kind.IsSigned()
    ensures kind == Int ==> CoerceSigned(kind, num) == FromInt(Atoi(num))
    ensures kind != Int ==> CoerceSigned(kind, num) == FromInt(ParseInt(num, kind.Bits()))
  {
  }

  /** An unsigned integer field: base 10 at the width of its kind. */
  function CoerceUnsignedAt(kind: Kind, num: string): (r: Result<Value, Error>)
    requires kind.IsUnsigned()
    ensures r.Ok? ==> HasKind(r.value, kind)
    ensures r.Err? ==> r.error.Parse?
  {
    FromUint(ParseUint(num, kind.Bits()))
  }

  /**
   * The type switch of setValue: a string is stored as it is; any other supported kind reads a
   * blank value as "0" (or "false" for a bool) and parses anything else untrimmed, with the
   * parser and bit size of its kind; a kind outside the switch is unsupported.
   */
  function Coerce(kind: Kind, raw: string, parseFloat: FloatParser): (r: Result<Value, Error>)
    ensures r.Ok? ==> HasKind(r.value, kind)
    ensures r.Err? ==> r.error.Parse? || r.error.UnsupportedType?
    ensures kind == String ==> r == Ok(StrV(raw))
    ensures kind.Other? ==> r == Err(UnsupportedType(kind.name))
  {
    var blank := IsBlank(raw);
    var num := if blank then "0" else raw;
    if kind.IsSigned() then CoerceSigned(kind, num)
    else if kind.IsUnsigned() then CoerceUnsignedAt(kind, num)
    else match kind
      case String => Ok(StrV(raw))
      case Bool => FromBool(ParseBool(if blank then "false" else raw))
      case Float32 => FromFloat(parseFloat(num, 32))
      case Float64 => FromFloat(parseFloat(num, 64))
      case Other(name) => Err(UnsupportedType(name))
  }

  /** A value that is not blank goes to the parser of an integer kind as it is. */
  lemma CoerceNumeric(kind: Kind, raw: string, parseFloat: FloatParser)
    requires !IsBlank(raw)
    ensures kind.IsSigned() ==> Coerce(kind, raw, parseFloat) == CoerceSigned(kind, raw)
    ensures kind.IsUnsigned() ==> Coerce(kind, raw, parseFloat) == CoerceUnsignedAt(kind, raw)
  {
  }

  /** An empty or all-blank value sets an integer field to 0 and a bool field to false. */
  lemma CoerceBlank(kind: Kind, raw: string, parseFloat: FloatParser)
    requires IsBlank(raw)
    requires kind.IsSigned() || kind.IsUnsigned() || kind == Bool
    ensures Coerce(kind, raw, parseFloat) == Ok(Zero(kind))
  {
    if kind.IsUnsigned() {
      BlankUnsignedZero(kind, raw, parseFloat);
    } else if kind.IsSigned() {
      BlankSignedZero(kind, raw, parseFloat);
    }
  }

  lemma BlankSignedZero(kind: Kind, raw: string, parseFloat: FloatParser)
    requires IsBlank(raw) && kind.IsSigned()
    ensures Coerce(kind, raw, parseFloat) == Ok(IntV(0))
  {
    BlankSigned(kind);
    BlankSignedNumeral(kind, raw, parseFloat);
  }

  lemma BlankUnsignedZero(kind: Kind, raw: string, parseFloat: FloatParser)
    requires IsBlank(raw) && kind.IsUnsigned()
    ensures Coerce(kind, raw, parseFloat) == Ok(UintV(0))
  {
    BlankUnsigned(kind);
    BlankUnsignedNumeral(kind, raw, parseFloat);
  }

  /** A blank value reaches the parser of a signed kind as "0". */
  lemma BlankSignedNumeral(kind: Kind, raw: string, parseFloat: FloatParser)
    requires IsBlank(raw) && kind.IsSigned()
    ensures Coerce(kind, raw, parseFloat) == CoerceSigned(kind, "0")
  {
  }

  /** A blank value reaches the parser of an unsigned kind as "0". */
  lemma BlankUnsignedNumeral(kind: Kind, raw: string, parseFloat: FloatParser)
    requires IsBlank(raw) && kind.IsUnsigned()
    ensures Coerce(kind, raw, parseFloat) == CoerceUnsignedAt(kind, "0")
  {
  }

  lemma BlankUnsigned(kind: Kind)
    requires kind.IsUnsigned()
    ensures CoerceUnsignedAt(kind, "0") == Ok(UintV(0))
  {
    ParseZero("ParseUint", kind.Bits());
  }

  lemma BlankSigned(kind: Kind)
    requires kind.IsSigned()
    ensures CoerceSigned(kind, "0") == Ok(IntV(0))
  {
    ParseZero(SignedParser(kind), kind.Bits());
  }

  /**
   * A non-blank value for an unsigned field is taken as it is: it is accepted exactly when it
   * is a decimal numeral that fits the width of the field, and then it sets that number.
   */
  lemma CoerceUnsigned(kind: Kind, raw: string, parseFloat: FloatParser)
    requires kind.IsUnsigned() && !IsBlank(raw)
    ensures Coerce(kind, raw, parseFloat).Ok? <==> AllDigits(raw) && DecimalValue(raw) < Pow2(kind.Bits())
    ensures Coerce(kind, raw, parseFloat).Ok? ==> Coerce(kind, raw, parseFloat).value == UintV(DecimalValue(raw))
  {
    CoerceNumeric(kind, raw, parseFloat);
    ParseUintAccepts(raw, kind.Bits());
  }

  /**
   * A non-blank value for a signed field is taken as it is: it is accepted exactly when it is a
   * decimal numeral with at most one sign whose value fits the width of the field, and then it
   * sets that number; a numeral that does not fit is a range error, a bare sign a syntax error.
   */
  lemma CoerceSignedAccepts(kind: Kind, raw: string, parseFloat: FloatParser)
    requires kind.IsSigned() && !IsBlank(raw)
    ensures var r := Coerce(kind, raw, parseFloat); var body := SignBody(raw);
      var fn := SignedParser(kind);
      && (r.Ok? <==> body != [] && AllDigits(body) && InSignedRange(IsNegative(raw), DecimalValue(body), kind.Bits()))
      && (r.Ok? ==> r.value == IntV(if IsNegative(raw) then -(DecimalValue(body) as int) else DecimalValue(body)))
      && (body != [] && AllDigits(body) && !InSignedRange(IsNegative(raw), DecimalValue(body), kind.Bits()) ==>
            r == Err(Parse(NumError(fn, raw, Range))))
      && (body == [] ==> r == Err(Parse(NumError(fn, raw, Syntax))))
  {
    CoerceNumeric(kind, raw, parseFloat);
    ParseIntAccepts(SignedParser(kind), raw, kind.Bits());
  }

  /** A signed field reads back every number of its width as written in decimal. */
  lemma CoerceSignedRoundTrip(kind: Kind, i: int, parseFloat: FloatParser)
    requires kind.IsSigned() && HasKind(IntV(i), kind)
    ensures Coerce(kind, FormatInt(i), parseFloat) == Ok(IntV(i))
  {
    var s := FormatInt(i);
    if i < 0 {
      assert s[0] == '-';
    } else {
      assert IsDigit(s[0]);
    }
    assert !IsSpace(s[0]);
    CoerceNumeric(kind, s, parseFloat);
    ParseIntRoundTrip(SignedParser(kind), i, kind.Bits());
  }

  /** An unsigned field reads back every number of its width as written in decimal. */
  lemma CoerceUnsignedRoundTrip(kind: Kind, n: nat, parseFloat: FloatParser)
    requires kind.IsUnsigned() && n < Pow2(kind.Bits())
    ensures Coerce(kind, FormatNat(n), parseFloat) == Ok(UintV(n))
  {
    var s := FormatNat(n);
    assert IsDigit(s[0]) && !IsSpace(s[0]);
    CoerceNumeric(kind, s, parseFloat);
    ParseUintRoundTrip(n, kind.Bits());
  }

  /** Values are not trimmed: a leading space makes an int value a syntax error, and a string keeps it. */
  lemma CoerceUntrimmed(parseFloat: FloatParser)
    ensures Coerce(Int, " 1", parseFloat) == Err(Parse(NumError("Atoi", " 1", Syntax)))
    ensures Coerce(String, " 1", parseFloat) == Ok(StrV(" 1"))
  {
    SignedLeadingSpace(Int, parseFloat);
  }

  lemma SignedLeadingSpace(kind: Kind, parseFloat: FloatParser)
    requires kind.IsSigned()
    ensures Coerce(kind, " 1", parseFloat) == Err(Parse(NumError(SignedParser(kind), " 1", Syntax)))
  {
    assert !IsSpace(" 1"[1]);
    CoerceNumeric(kind, " 1", parseFloat);
    LeadingSpace(SignedParser(kind), kind.Bits());
  }

  /** The struct type being bound, whether it was handed over by pointer, and the float conversion. */
  datatype Binder = Binder(typ: StructType, byPointer: bool, parseFloat: FloatParser)

  /**
   * reflect's CanSet on configElemVal.FieldByName(name): the field exists, and it is exported and
   * reached through a pointer (a struct handed over by value is a copy nothing can be set in).
   */
  predicate Settable(b: Binder, fieldName: string) {
    var i := FieldIndex(b.typ.fields, fieldName);
    i.Some? && b.byPointer && b.typ.fields[i.value].exported
  }

  /**
   * What setValue writes, and where: a field position and a value, or the error it returns. A
   * value that converts is then stored by reflect.Value.Set, which panics when the field's type
   * is a defined type: the converted value has the predeclared type, which is not assignable to
   * it. Nothing recovers that panic; the model ends the write with AssignPanic.
   */
  function FieldWrite(b: Binder, fieldName: string, raw: string): (r: Result<(nat, Value), Error>)
    ensures r.Ok? ==> Settable(b, fieldName) && FieldIndex(b.typ.fields, fieldName) == Some(r.value.0)
    ensures r.Ok? ==> !b.typ.fields[r.value.0].definedType
    ensures r.Ok? ==> HasKind(r.value.1, b.typ.fields[r.value.0].kind)
    ensures r.Ok? ==> Coerce(b.typ.fields[r.value.0].kind, raw, b.parseFloat) == Ok(r.value.1)
    ensures !Settable(b, fieldName) <==> r == Err(FieldCannotBeSet)
    ensures r.Err? ==> r.error.FieldCannotBeSet? || r.error.Parse? || r.error.UnsupportedType? || r.error.AssignPanic?
    ensures Settable(b, fieldName) ==>
      var f := b.typ.fields[FieldIndex(b.typ.fields, fieldName).value];
      var c := Coerce(f.kind, raw, b.parseFloat);
      && (c.Err? ==> r == Err(c.error))
      && (c.Ok? && f.definedType ==> r == Err(AssignPanic(fieldName)))
  {
    match FieldIndex(b.typ.fields, fieldName)
    case None => Err(FieldCannotBeSet)
    case Some(i) =>
      if !(b.byPointer && b.typ.fields[i].exported) then Err(FieldCannotBeSet)
      else
        match Coerce(b.typ.fields[i].kind, raw, b.parseFloat)
        case Ok(v) => if b.typ.fields[i].definedType then Err(AssignPanic(fieldName)) else Ok((i, v))
        case Err(e) => Err(e)
  }

  // ---------------------------------------------------------------------------------------------
  // Update and the seeding loop of WatchConfig: applying a batch of (key, value) pairs.

  /** Where a batch stands: the field values, the callbacks collected, and the error that stopped it. */
  datatype Phase = Phase(values: seq<Value>, methods: set<string>, failure: Option<Error>)

  /** One pair of the batch: a key outside the table is skipped; otherwise its field is set. */
  function Step(b: Binder, meta: map<string, FieldMeta>, p: Phase, key: string, raw: string): (q: Phase)
    requires |p.values| == |b.typ.fields|
    ensures |q.values| == |p.values|
  {
    if key !in meta then p
    else
      match FieldWrite(b, meta[key].fieldName, raw)
      case Err(e) => p.(failure := Some(e))
      case Ok((i, v)) => Phase(p.values[i := v], p.methods + {meta[key].apolloCallback}, None)
  }

  /**
   * The first loop of Update (and the loop of WatchConfig) over the pairs in the order taken:
   * each pair is applied to the fields in turn, and the first failure stops the loop, leaving
   * what the pairs before it set.
   */
  function Apply(b: Binder, meta: map<string, FieldMeta>, start: seq<Value>, batch: seq<(string, string)>): (p: Phase)
    requires |start| == |b.typ.fields|
    ensures |p.values| == |start|
    ensures p.failure.Some? ==>
      var e := p.failure.value; e.FieldCannotBeSet? || e.Parse? || e.UnsupportedType? || e.AssignPanic?
  {
    if batch == [] then Phase(start, {}, None)
    else
      var q := Apply(b, meta, start, batch[..|batch| - 1]);
      if q.failure.Some? then q
      else Step(b, meta, q, batch[|batch| - 1].0, batch[|batch| - 1].1)
  }

  /** The keys a batch names. */
  function KeysOf(batch: seq<(string, string)>): set<string> {
    if batch == [] then {} else KeysOf(batch[..|batch| - 1]) + {batch[|batch| - 1].0}
  }

  lemma {:induction false} KeysOfSpec(batch: seq<(string, string)>)
    ensures forall i :: 0 <= i < |batch| ==> batch[i].0 in KeysOf(batch)
    ensures forall k :: k in KeysOf(batch) ==> exists i :: 0 <= i < |batch| && batch[i].0 == k
  {
    if batch != [] {
      var init := batch[..|batch| - 1];
      KeysOfSpec(init);
      assert forall i :: 0 <= i < |init| ==> init[i] == batch[i];
    }
  }

  /** Every name a batch collects is the callback of an entry of the table. */
  lemma {:induction false} ApplyMethods(b: Binder, meta: map<string, FieldMeta>, start: seq<Value>, batch: seq<(string, string)>)
    requires |start| == |b.typ.fields|
    ensures forall m :: m in Apply(b, meta, start, batch).methods ==> exists k :: k in meta && meta[k].apolloCallback == m
  {
    if batch != [] {
      ApplyMethods(b, meta, start, batch[..|batch| - 1]);
    }
  }

  /**
   * The converse: a batch that goes through collects the callback name of every key it
   * matches, the empty name of a field without a callback included.
   */
  lemma {:induction false} ApplyCollects(b: Binder, meta: map<string, FieldMeta>, start: seq<Value>, batch: seq<(string, string)>)
    requires |start| == |b.typ.fields|
    requires Apply(b, meta, start, batch).failure.None?
    ensures forall i :: 0 <= i < |batch| && batch[i].0 in meta ==>
      meta[batch[i].0].apolloCallback in Apply(b, meta, start, batch).methods
  {
    if batch != [] {
      var init := batch[..|batch| - 1];
      var q := Apply(b, meta, start, init);
      assert q.failure.None?;
      ApplyCollects(b, meta, start, init);
      assert q.methods <= Apply(b, meta, start, batch).methods;
      assert forall i :: 0 <= i < |init| ==> init[i] == batch[i];
    }
  }

  predicate DistinctKeys(batch: seq<(string, string)>) {
    forall i, j :: 0 <= i < j < |batch| ==> batch[i].0 != batch[j].0
  }

  /** The key binds the field at position j. */
  predicate Targets(b: Binder, meta: map<string, FieldMeta>, key: string, j: nat) {
    key in meta && FieldIndex(b.typ.fields, meta[key].fieldName) == Some(j)
  }

  /**
   * A batch of distinct keys that goes through sets each bound field to the value of the one key
   * that binds it and leaves every other field alone, whatever the order the keys were taken in.
   */
  lemma {:induction false} BatchValues(b: Binder, meta: map<string, FieldMeta>, start: seq<Value>,
                                       batch: seq<(string, string)>, j: nat)
    requires |start| == |b.typ.fields| && j < |start|
    requires MetaSound(b.typ.fields, meta) && DistinctKeys(batch)
    requires Apply(b, meta, start, batch).failure.None?
    ensures forall i :: 0 <= i < |batch| && Targets(b, meta, batch[i].0, j) ==>
      FieldWrite(b, meta[batch[i].0].fieldName, batch[i].1).Ok? &&
      Apply(b, meta, start, batch).values[j] == FieldWrite(b, meta[batch[i].0].fieldName, batch[i].1).value.1
    ensures (forall i :: 0 <= i < |batch| ==> !Targets(b, meta, batch[i].0, j)) ==>
      Apply(b, meta, start, batch).values[j] == start[j]
  {
    if batch != [] {
      var n := |batch|;
      var init := batch[..n - 1];
      var key := batch[n - 1].0;
      assert forall i :: 0 <= i < n - 1 ==> init[i] == batch[i];
      BatchValues(b, meta, start, init, j);
      var q := Apply(b, meta, start, init);
      if key in meta {
        var w := FieldWrite(b, meta[key].fieldName, batch[n - 1].1);
      }
    }
  }

  /** The first pairs of a batch drawn from kv: distinct keys, each with its value, and rest the keys not drawn yet. */
  predicate Drawn(kv: map<string, string>, batch: seq<(string, string)>, rest: set<string>) {
    && rest <= kv.Keys
    && DistinctKeys(batch)
    && (forall i :: 0 <= i < |batch| ==> batch[i].0 in kv && batch[i].1 == kv[batch[i].0])
    && KeysOf(batch) == kv.Keys - rest
  }

  lemma DrawnStep(kv: map<string, string>, batch: seq<(string, string)>, rest: set<string>, key: string)
    requires Drawn(kv, batch, rest) && key in rest
    ensures Drawn(kv, batch + [(key, kv[key])], rest - {key})
  {
    KeysOfSpec(batch);
    var next := batch + [(key, kv[key])];
    assert next[..|batch|] == batch;
  }

  /** A batch that has gone through so far, with the field values and callbacks it leaves. */
  predicate Progress(b: Binder, meta: map<string, FieldMeta>, start: seq<Value>, batch: seq<(string, string)>,
                     values: seq<Value>, methods: set<string>)
    requires |start| == |b.typ.fields|
  {
    var p := Apply(b, meta, start, batch);
    p.failure.None? && values == p.values && methods == p.methods
  }

  /** One more pair: skipped when its key is unbound, written when its field write succeeds, and the end otherwise. */
  lemma ProgressStep(b: Binder, meta: map<string, FieldMeta>, start: seq<Value>, batch: seq<(string, string)>,
                     values: seq<Value>, methods: set<string>, key: string, raw: string)
    requires |start| == |b.typ.fields| && Progress(b, meta, start, batch, values, methods)
    ensures var next := batch + [(key, raw)];
      && (key !in meta ==> Progress(b, meta, start, next, values, methods))
      && (key in meta && FieldWrite(b, meta[key].fieldName, raw).Ok? ==>
            var w := FieldWrite(b, meta[key].fieldName, raw).value;
            Progress(b, meta, start, next, values[w.0 := w.1], methods + {meta[key].apolloCallback}))
      && (key in meta && FieldWrite(b, meta[key].fieldName, raw).Err? ==>
            Apply(b, meta, start, next) == Phase(values, methods, Some(FieldWrite(b, meta[key].fieldName, raw).error)))
  {
    assert (batch + [(key, raw)])[..|batch|] == batch;
  }

  /**
   * The batch stops at pair n: the pairs before it go through, the field write of pair n fails,
   * and the outcome is the state before it with that error.
   */
  predicate FailsAt(b: Binder, meta: map<string, FieldMeta>, start: seq<Value>, batch: seq<(string, string)>, n: nat)
    requires |start| == |b.typ.fields| && n < |batch|
  {
    var p := Apply(b, meta, start, batch[..n]);
    && p.failure.None?
    && batch[n].0 in meta
    && FieldWrite(b, meta[batch[n].0].fieldName, batch[n].1).Err?
    && Apply(b, meta, start, batch) == p.(failure := Some(FieldWrite(b, meta[batch[n].0].fieldName, batch[n].1).error))
  }

  /**
   * Field j after a batch that went through: when a key of kv binds it, the value that key's
   * write produces, and otherwise its value before the batch.
   */
  predicate Settled(b: Binder, meta: map<string, FieldMeta>, kv: map<string, string>,
                    start: seq<Value>, values: seq<Value>, j: nat)
    requires j < |start| && j < |values|
  {
    && (forall k :: k in kv && Targets(b, meta, k, j) ==>
          FieldWrite(b, meta[k].fieldName, kv[k]).Ok? && values[j] == FieldWrite(b, meta[k].fieldName, kv[k]).value.1)
    && ((forall k :: k in kv ==> !Targets(b, meta, k, j)) ==> values[j] == start[j])
  }

  /** A failed batch stopped at one pair: the pairs before it went through, and that pair's field write failed. */
  lemma {:induction false} BatchFailure(b: Binder, meta: map<string, FieldMeta>, start: seq<Value>,
                                        batch: seq<(string, string)>)
    requires |start| == |b.typ.fields|
    requires Apply(b, meta, start, batch).failure.Some?
    ensures exists n :: 0 <= n < |batch| && FailsAt(b, meta, start, batch, n)
  {
    var n := |batch| - 1;
    var init := batch[..n];
    if Apply(b, meta, start, init).failure.Some? {
      BatchFailure(b, meta, start, init);
      var m :| 0 <= m < |init| && FailsAt(b, meta, start, init, m);
      assert init[..m] == batch[..m] && init[m] == batch[m];
      assert FailsAt(b, meta, start, batch, m);
    } else {
      assert batch[..n] == init;
      assert FailsAt(b, meta, start, batch, n);
    }
  }

  /** A batch none of whose keys is in the table changes nothing and collects no callback. */
  lemma {:induction false} BatchUnmatched(b: Binder, meta: map<string, FieldMeta>, start: seq<Value>,
                                          batch: seq<(string, string)>)
    requires |start| == |b.typ.fields|
    requires forall i :: 0 <= i < |batch| ==> batch[i].0 !in meta
    ensures Apply(b, meta, start, batch) == Phase(start, {}, None)
  {
    if batch != [] {
      var init := batch[..|batch| - 1];
      assert forall i :: 0 <= i < |init| ==> init[i] == batch[i];
      BatchUnmatched(b, meta, start, init);
    }
  }

  // ---------------------------------------------------------------------------------------------
  // callMethod, and the callback loop of Update.

  /** A callback call: the method called and the struct value passed to it. */
  datatype Call = Call(callback: string, arg: StructValue)

  /** The callback loop of Update over the names in the order taken: calls made, and the error that stopped it. */
  datatype Invocations = Invocations(log: seq<Call>, failure: Option<Error>)

  /**
   * Calling the collected callbacks in turn with the same argument: a name outside the method
   * set stops the loop with MethodNotExist before any call, and a call that faults is made and
   * then stops the loop with a panic error.
   */
  function Invoke(methods: set<string>, faulting: set<string>, arg: StructValue, order: seq<string>): (r: Invocations)
    ensures |r.log| <= |order|
  {
    if order == [] then Invocations([], None)
    else
      var p := Invoke(methods, faulting, arg, order[..|order| - 1]);
      var m := order[|order| - 1];
      if p.failure.Some? then p
      else if m !in methods then Invocations(p.log, Some(MethodNotExist))
      else if m in faulting then Invocations(p.log + [Call(m, arg)], Some(Panic(m)))
      else Invocations(p.log + [Call(m, arg)], None)
  }

  /**
   * The calls are the names in order, each with the argument; the run goes through exactly when
   * every name is an existing method that does not fault, and then every name is called; a
   * missing method stops it only when some name is missing.
   */
  lemma {:induction false} InvokeSpec(methods: set<string>, faulting: set<string>, arg: StructValue, order: seq<string>)
    ensures var r := Invoke(methods, faulting, arg, order);
      && (forall i :: 0 <= i < |r.log| ==> r.log[i] == Call(order[i], arg))
      && (r.failure.None? <==> forall i :: 0 <= i < |order| ==> order[i] in methods && order[i] !in faulting)
      && (r.failure.None? ==> |r.log| == |order|)
      && (r.failure == Some(MethodNotExist) ==> exists i :: 0 <= i < |order| && order[i] !in methods)
  {
    if order != [] {
      var init := order[..|order| - 1];
      InvokeSpec(methods, faulting, arg, init);
      assert forall i :: 0 <= i < |init| ==> init[i] == order[i];
    }
  }

  /** One more name after a run that went through: it is missing, it faults, or it is called and the run goes on. */
  lemma InvokeSnoc(methods: set<string>, faulting: set<string>, arg: StructValue, order: seq<string>, m: string)
    requires Invoke(methods, faulting, arg, order).failure.None?
    ensures var p := Invoke(methods, faulting, arg, order);
      Invoke(methods, faulting, arg, order + [m]) ==
        if m !in methods then Invocations(p.log, Some(MethodNotExist))
        else if m in faulting then Invocations(p.log + [Call(m, arg)], Some(Panic(m)))
        else Invocations(p.log + [Call(m, arg)], None)
  {
    assert (order + [m])[..|order|] == order;
  }

  /** The names taken so far from a set, each once, with pending the ones not taken yet. */
  predicate Picked(names: set<string>, order: seq<string>, pending: set<string>) {
    && pending <= names
    && (forall i, j :: 0 <= i < j < |order| ==> order[i] != order[j])
    && (forall m :: m in order ==> m in names && m !in pending)
    && (forall m :: m in names && m !in pending ==> m in order)
  }

  lemma PickedStep(names: set<string>, order: seq<string>, pending: set<string>, m: string)
    requires Picked(names, order, pending) && m in pending
    ensures Picked(names, order + [m], pending - {m})
  {
  }

  // ---------------------------------------------------------------------------------------------
  // The caller's struct, and the updater.

  /** The caller's struct: its type, its field values in declaration order, and the callback calls it received. */
  class Record {
    const typ: StructType
    var values: seq<Value>
    var calls: seq<Call>

    ghost predicate Valid()
      reads this
    {
      typ.WellFormed() && Conforms(typ, values)
    }

    function Snapshot(): (s: StructValue)
      reads this
      ensures s.typ == typ && s.values == values
    {
      StructValue(typ, values)
    }

    constructor (typ: StructType, values: seq<Value>)
      requires typ.WellFormed() && Conforms(typ, values)
      ensures Valid() && this.typ == typ && this.values == values && calls == []
    {
      this.typ := typ;
      this.values := values;
      this.calls := [];
    }
  }

  /** The value handed to newConfigUpdater: a struct, a pointer to the caller's struct, or another kind. */
  datatype ConfigArg = StructArg(v: StructValue) | PointerArg(rec: Record) | OtherArg(kind: Kind)

  class ConfigUpdater {
    /** The struct bound: the caller's own through a pointer, a private copy when handed over by value. */
    const config: Record
    const byPointer: bool
    const parseFloat: FloatParser
    var fieldsMeta: map<string, FieldMeta>

    function Binding(): Binder {
      Binder(config.typ, byPointer, parseFloat)
    }

    /** The state newConfigUpdater hands out: the table of the type, with every callback found. */
    ghost predicate Valid()
      reads this, config
    {
      && config.Valid()
      && fieldsMeta == Table(config.typ.fields)
      && FirstBadCallback(config.typ.fields, config.typ.MethodSet(byPointer)).None?
    }

    constructor (config: Record, byPointer: bool, parseFloat: FloatParser)
      ensures this.config == config && this.byPointer == byPointer && this.parseFloat == parseFloat
      ensures fieldsMeta == map[]
    {
      this.config := config;
      this.byPointer := byPointer;
      this.parseFloat := parseFloat;
      this.fieldsMeta := map[];
    }

    /**
     * parserConfig: enters the binding of every bound field under its remote key, in declaration
     * order, and stops at the first bound field whose callback the type as handed over lacks.
     */
    method ParserConfig() returns (err: Option<Error>)
      modifies this
      ensures var bad := FirstBadCallback(config.typ.fields, config.typ.MethodSet(byPointer));
        err == if bad.Some? then Some(InvalidCallback(bad.value)) else None
      ensures err.None? ==> fieldsMeta == old(fieldsMeta) + Table(config.typ.fields)
    {
      var fields := config.typ.fields;
      var methods := config.typ.MethodSet(byPointer);
      for i := 0 to |fields|
        invariant fieldsMeta == old(fieldsMeta) + Table(fields[..i])
        invariant FirstBadCallback(fields[..i], methods).None?
      {
        var f := fields[i];
        TableSnoc(fields, i, methods);
        if !IsLower(f.name) {
          var apolloKey := TagGet(f.tags, "apollo_key");
          if apolloKey == "" {
            apolloKey := f.name;
          }
          var apolloCallback := TagGet(f.tags, "apollo_callback");
          var apolloDefault := TagGet(f.tags, "apollo_default");
          if apolloCallback != "" && apolloCallback !in methods {
            FirstBadPrefix(fields, i + 1, methods);
            return Some(InvalidCallback(apolloCallback));
          }
          assert apolloKey == RemoteKey(f) && FieldMeta(f.name, apolloKey, apolloCallback, apolloDefault) == Meta(f);
          UnionUpdate(old(fieldsMeta), Table(fields[..i]), apolloKey, Meta(f));
          fieldsMeta := fieldsMeta[apolloKey := FieldMeta(f.name, apolloKey, apolloCallback, apolloDefault)];
        }
      }
      assert fields[..|fields|] == fields;
      return None;
    }

    /**
     * setValue: finds the field by name and, when it can be set, converts the raw value by the
     * field's kind and stores it; a field that cannot be set, a value that does not convert, or
     * the Set panic on a field of a defined type is an error and leaves the struct as it was.
     */
    method SetValue(fieldName: string, newValue: string) returns (err: Option<Error>)
      requires config.Valid()
      modifies config
      ensures config.Valid() && config.calls == old(config.calls)
      ensures var w := FieldWrite(Binding(), fieldName, newValue);
        && (w.Ok? ==> err.None? && config.values == old(config.values)[w.value.0 := w.value.1])
        && (w.Err? ==> err == Some(w.error) && config.values == old(config.values))
    {
      var index := FieldIndex(config.typ.fields, fieldName);
      if index.None? || !byPointer || !config.typ.fields[index.value].exported {
        return Some(FieldCannotBeSet);
      }
      var i := index.value;
      var converted := Coerce(config.typ.fields[i].kind, newValue, parseFloat);
      if converted.Err? {
        return Some(converted.error);
      }
      if config.typ.fields[i].definedType {
        return Some(AssignPanic(fieldName));
      }
      config.values := config.values[i := converted.value];
      err := None;
    }

    /**
     * callMethod: looks the method up on the value handed over and calls it with the argument; a
     * missing method is an error, and a call that faults is recovered into an error.
     */
    method CallMethod(methodName: string, arg: StructValue) returns (err: Option<Error>)
      modifies config
      ensures config.values == old(config.values)
      ensures methodName !in config.typ.MethodSet(byPointer) ==>
        err == Some(MethodNotExist) && config.calls == old(config.calls)
      ensures methodName in config.typ.MethodSet(byPointer) ==>
        && config.calls == old(config.calls) + [Call(methodName, arg)]
        && err == if methodName in config.typ.faulting then Some(Panic(methodName)) else None
    {
      if methodName !in config.typ.MethodSet(byPointer) {
        return Some(MethodNotExist);
      }
      config.calls := config.calls + [Call(methodName, arg)];
      if methodName in config.typ.faulting {
        return Some(Panic(methodName));
      }
      return None;
    }

    /**
     * The first loop of Update: takes the keys of kv one at a time in an order the model leaves
     * open (batch records it), sets the field of every key the table binds, collects its
     * callback name (the empty one too), and stops at the first field that fails.
     */
    method ApplyChanges(kv: map<string, string>) returns (err: Option<Error>, methods: set<string>, ghost batch: seq<(string, string)>)
      requires config.Valid()
      modifies config
      ensures config.Valid() && config.calls == old(config.calls)
      ensures DistinctKeys(batch) && forall i :: 0 <= i < |batch| ==> batch[i].0 in kv && batch[i].1 == kv[batch[i].0]
      ensures var p := Apply(Binding(), fieldsMeta, old(config.values), batch);
        && config.values == p.values && err == p.failure && methods == p.methods
        && (p.failure.None? ==> KeysOf(batch) == kv.Keys)
    {
      ghost var start := config.values;
      methods := {};
      var rest := kv.Keys;
      batch := [];
      while rest != {}
        invariant config.Valid() && config.calls == old(config.calls)
        invariant Drawn(kv, batch, rest)
        invariant Progress(Binding(), fieldsMeta, start, batch, config.values, methods)
        decreases rest
      {
        var k :| k in rest;
        var v := kv[k];
        DrawnStep(kv, batch, rest, k);
        ProgressStep(Binding(), fieldsMeta, start, batch, config.values, methods, k, v);
        rest := rest - {k};
        batch := batch + [(k, v)];
        if k in fieldsMeta {
          var configField := fieldsMeta[k];
          var e := SetValue(configField.fieldName, v);
          if e.Some? {
            return e, methods, batch;
          }
          methods := methods + {configField.apolloCallback};
        }
      }
      err := None;
    }

    /**
     * The second loop of Update: calls each collected name once, in an order the model leaves
     * open (order records it), with the same argument, and stops at the first call that fails.
     */
    method CallCallbacks(methods: set<string>, arg: StructValue) returns (err: Option<Error>, ghost order: seq<string>)
      modifies config
      ensures config.values == old(config.values)
      ensures (forall i, j :: 0 <= i < j < |order| ==> order[i] != order[j]) && forall m :: m in order ==> m in methods
      ensures err.None? ==> forall m :: m in methods ==> m in order
      ensures var inv := Invoke(config.typ.MethodSet(byPointer), config.typ.faulting, arg, order);
        config.calls == old(config.calls) + inv.log && err == inv.failure
    {
      ghost var ms := config.typ.MethodSet(byPointer);
      ghost var faulting := config.typ.faulting;
      var pending := methods;
      order := [];
      while pending != {}
        invariant config.values == old(config.values)
        invariant Picked(methods, order, pending)
        invariant Invoke(ms, faulting, arg, order).failure.None?
        invariant config.calls == old(config.calls) + Invoke(ms, faulting, arg, order).log
        decreases pending
      {
        var name :| name in pending;
        PickedStep(methods, order, pending, name);
        InvokeSnoc(ms, faulting, arg, order, name);
        pending := pending - {name};
        order := order + [name];
        var e := CallMethod(name, arg);
        if e.Some? {
          return e, order;
        }
      }
      err := None;
    }

    /**
     * Update: takes a copy of the struct (elem of copyStruct), applies the changes, and then
     * calls every callback collected with the copy. batch and order are the orders taken.
     */
    method Update(kv: map<string, string>) returns (err: Option<Error>, ghost batch: seq<(string, string)>, ghost order: seq<string>)
      requires Valid()
      modifies config
      ensures Valid()
      ensures DistinctKeys(batch) && forall i :: 0 <= i < |batch| ==> batch[i].0 in kv && batch[i].1 == kv[batch[i].0]
      ensures var p := Apply(Binding(), fieldsMeta, old(config.values), batch);
        && config.values == p.values
        && (p.failure.Some? ==> err == p.failure && config.calls == old(config.calls) && order == [])
        && (p.failure.None? ==>
          && KeysOf(batch) == kv.Keys
          && (forall i, j :: 0 <= i < j < |order| ==> order[i] != order[j])
          && (forall m :: m in order ==> m in p.methods)
          && (err.None? ==> forall m :: m in p.methods ==> m in order)
          && var inv := Invoke(config.typ.MethodSet(byPointer), config.typ.faulting,
                               ExportedCopy(old(config.Snapshot())), order);
             config.calls == old(config.calls) + inv.log && err == inv.failure)
        && ("" in p.methods ==> err.Some?)
        && (err == Some(MethodNotExist) ==> p.failure.None? && "" in p.methods)
        && (p.failure.None? ==> forall k :: k in kv && k in fieldsMeta ==> fieldsMeta[k].apolloCallback in p.methods)
        && (err.None? ==> forall k :: k in kv && k in fieldsMeta ==> fieldsMeta[k].apolloCallback in order)
      ensures forall k :: k in kv && k in fieldsMeta && fieldsMeta[k].apolloCallback == "" ==> err.Some?
      ensures Apply(Binding(), fieldsMeta, old(config.values), batch).failure.None? ==>
        forall j :: 0 <= j < |config.values| ==> Settled(Binding(), fieldsMeta, kv, old(config.values), config.values, j)
    {
      var copied := CopyStruct(if byPointer then Pointer(Struct(config.Snapshot())) else Struct(config.Snapshot()));
      var oldConfig := Elem(copied);
      ghost var start := config.values;
      ghost var snap := ExportedCopy(config.Snapshot());
      assert oldConfig == Struct(snap);

      var methods;
      err, methods, batch := ApplyChanges(kv);
      order := [];
      if err.Some? {
        return;
      }
      UpdateValues(kv, start, batch);
      err, order := CallCallbacks(methods, oldConfig.v);
      ApplyMethods(Binding(), fieldsMeta, start, batch);
      ApplyCollects(Binding(), fieldsMeta, start, batch);
      KeysOfSpec(batch);
      CallbackFailures(methods, order, snap);
    }

    /** With the batch through, the fields a key of kv binds hold its value and the others are as they were. */
    lemma UpdateValues(kv: map<string, string>, start: seq<Value>, batch: seq<(string, string)>)
      requires Valid() && |start| == |config.typ.fields|
      requires DistinctKeys(batch) && forall i :: 0 <= i < |batch| ==> batch[i].0 in kv && batch[i].1 == kv[batch[i].0]
      requires KeysOf(batch) == kv.Keys
      requires Apply(Binding(), fieldsMeta, start, batch).failure.None?
      ensures var vs := Apply(Binding(), fieldsMeta, start, batch).values;
        forall j :: 0 <= j < |vs| ==> Settled(Binding(), fieldsMeta, kv, start, vs, j)
    {
      TableSound(config.typ);
      KeysOfSpec(batch);
      var vs := Apply(Binding(), fieldsMeta, start, batch).values;
      forall j | 0 <= j < |vs|
        ensures Settled(Binding(), fieldsMeta, kv, start, vs, j)
      {
        BatchValues(Binding(), fieldsMeta, start, batch, j);
        forall k | k in kv && Targets(Binding(), fieldsMeta, k, j)
          ensures FieldWrite(Binding(), fieldsMeta[k].fieldName, kv[k]).Ok? &&
                  vs[j] == FieldWrite(Binding(), fieldsMeta[k].fieldName, kv[k]).value.1
        {
          assert k in KeysOf(batch);
          var i :| 0 <= i < |batch| && batch[i].0 == k;
          assert batch[i].1 == kv[k];
          assert Targets(Binding(), fieldsMeta, batch[i].0, j);
        }
        if forall k :: k in kv ==> !Targets(Binding(), fieldsMeta, k, j) {
          assert forall i :: 0 <= i < |batch| ==> !Targets(Binding(), fieldsMeta, batch[i].0, j);
        }
      }
    }

    /**
     * The only callback name the table can hold that the type lacks is the empty one: so when the
     * empty name is among those collected the loop fails, and a missing method is that name.
     */
    lemma CallbackFailures(methods: set<string>, order: seq<string>, arg: StructValue)
      requires Valid()
      requires forall m :: m in methods ==> exists k :: k in fieldsMeta && fieldsMeta[k].apolloCallback == m
      requires forall m :: m in order ==> m in methods
      ensures var inv := Invoke(config.typ.MethodSet(byPointer), config.typ.faulting, arg, order);
        && ((forall m :: m in methods ==> m in order) && "" in methods ==> inv.failure.Some?)
        && (inv.failure == Some(MethodNotExist) ==> "" in methods)
    {
      TableCallbacks(config.typ.fields, config.typ.MethodSet(byPointer));
      InvokeSpec(config.typ.MethodSet(byPointer), config.typ.faulting, arg, order);
      var inv := Invoke(config.typ.MethodSet(byPointer), config.typ.faulting, arg, order);
      var ms := config.typ.MethodSet(byPointer);
      if (forall m :: m in methods ==> m in order) && "" in methods {
        var i :| 0 <= i < |order| && order[i] == "";
      }
      if inv.failure == Some(MethodNotExist) {
        var i :| 0 <= i < |order| && order[i] !in ms;
        assert order[i] in order;
        var k :| k in fieldsMeta && fieldsMeta[k].apolloCallback == order[i];
      }
    }

    /**
     * The seeding loop of WatchConfig: for each key of the namespace that the table binds, the
     * current value (getString(key, default), the default of the binding when the key has no
     * value) is set into the field; the first failure stops the loop.
     */
    method Seed(keys: seq<string>, getString: (string, string) -> string) returns (err: Option<Error>)
      requires Valid()
      modifies config
      ensures Valid() && config.calls == old(config.calls)
      ensures var p := Apply(Binding(), fieldsMeta, old(config.values), SeedBatch(keys, fieldsMeta, getString));
        config.values == p.values && err == p.failure
    {
      ghost var start := config.values;
      ghost var collected := {};
      for i := 0 to |keys|
        invariant config.Valid() && config.calls == old(config.calls)
        invariant Progress(Binding(), fieldsMeta, start, SeedBatch(keys[..i], fieldsMeta, getString), config.values, collected)
      {
        var key := keys[i];
        SeedBatchSnoc(keys, i, fieldsMeta, getString);
        ghost var raw := if key in fieldsMeta then getString(key, fieldsMeta[key].apolloDefault) else "";
        ProgressStep(Binding(), fieldsMeta, start, SeedBatch(keys[..i], fieldsMeta, getString), config.values, collected, key, raw);
        if key in fieldsMeta {
          var fieldMeta := fieldsMeta[key];
          var val := getString(key, fieldMeta.apolloDefault);
          var e := SetValue(fieldMeta.fieldName, val);
          if e.Some? {
            SeedBatchExtends(keys, i, fieldsMeta, getString, Binding(), start);
            return e;
          }
          collected := collected + {fieldMeta.apolloCallback};
        }
      }
      assert keys[..|keys|] == keys;
      return None;
    }
  }

  /** The pairs the seeding loop applies: each key with its current value, or its binding's default. */
  function SeedBatch(keys: seq<string>, meta: map<string, FieldMeta>, getString: (string, string) -> string): (b: seq<(string, string)>)
    ensures |b| == |keys|
    ensures forall i :: 0 <= i < |keys| ==> b[i].0 == keys[i]
    ensures forall i :: 0 <= i < |keys| && keys[i] in meta ==> b[i].1 == getString(keys[i], meta[keys[i]].apolloDefault)
  {
    seq(|keys|, i requires 0 <= i < |keys| =>
      (keys[i], if keys[i] in meta then getString(keys[i], meta[keys[i]].apolloDefault) else ""))
  }

  /** The seed batch of one more key is that of the keys before it, with one more pair. */
  lemma SeedBatchSnoc(keys: seq<string>, i: nat, meta: map<string, FieldMeta>, getString: (string, string) -> string)
    requires i < |keys|
    ensures SeedBatch(keys[..i + 1], meta, getString) == SeedBatch(keys[..i], meta, getString)
      + [(keys[i], if keys[i] in meta then getString(keys[i], meta[keys[i]].apolloDefault) else "")]
  {
  }

  /** A batch that fails at key i fails, with the same fields, however many keys follow. */
  lemma {:induction false} SeedBatchExtends(keys: seq<string>, i: nat, meta: map<string, FieldMeta>,
                                            getString: (string, string) -> string, b: Binder, start: seq<Value>)
    requires i < |keys| && |start| == |b.typ.fields|
    requires Apply(b, meta, start, SeedBatch(keys[..i + 1], meta, getString)).failure.Some?
    ensures Apply(b, meta, start, SeedBatch(keys, meta, getString)) == Apply(b, meta, start, SeedBatch(keys[..i + 1], meta, getString))
    decreases |keys| - i
  {
    if i + 1 < |keys| {
      var whole := SeedBatch(keys, meta, getString);
      assert SeedBatch(keys[..|keys| - 1], meta, getString) == whole[..|keys| - 1];
      assert keys[..|keys| - 1][..i + 1] == keys[..i + 1];
      SeedBatchExtends(keys[..|keys| - 1], i, meta, getString, b, start);
    } else {
      assert keys[..i + 1] == keys;
    }
  }

  /**
   * newConfigUpdater: the value handed over must be a struct or a pointer to one; the updater
   * binds its type, and is refused when a callback tag names a method the type as handed over
   * does not have.
   */
  method NewConfigUpdater(arg: ConfigArg, parseFloat: FloatParser) returns (u: ConfigUpdater?, err: Option<Error>)
    requires arg.StructArg? ==> arg.v.typ.WellFormed() && Conforms(arg.v.typ, arg.v.values)
    requires arg.PointerArg? ==> arg.rec.Valid()
    ensures arg.OtherArg? ==> u == null && err == Some(InvalidConfig)
    ensures !arg.OtherArg? ==>
      var t := if arg.StructArg? then arg.v.typ else arg.rec.typ;
      var bad := FirstBadCallback(t.fields, t.MethodSet(arg.PointerArg?));
      && (bad.Some? ==> u == null && err == Some(InvalidCallback(bad.value)))
      && (bad.None? ==> err.None? && u != null && fresh(u) && u.Valid() && u.byPointer == arg.PointerArg?)
    ensures u != null && arg.PointerArg? ==> u.config == arg.rec
    ensures u != null && arg.StructArg? ==> fresh(u.config) && u.config.Snapshot() == arg.v && u.config.calls == []
  {
    var config: Record;
    var byPointer: bool;
    match arg {
      case OtherArg(_) =>
        return null, Some(InvalidConfig);
      case StructArg(v) =>
        config := new Record(v.typ, v.values);
        byPointer := false;
      case PointerArg(rec) =>
        config := rec;
        byPointer := true;
    }
    var updater := new ConfigUpdater(config, byPointer, parseFloat);
    var e := updater.ParserConfig();
    if e.Some? {
      return null, e;
    }
    return updater, None;
  }

  /**
   * WatchConfig up to the start of the watch: makes the updater and seeds the bound fields from
   * the keys of the default namespace; the first error is returned.
   */
  method WatchConfig(arg: ConfigArg, parseFloat: FloatParser, keys: seq<string>,
                     getString: (string, string) -> string) returns (u: ConfigUpdater?, err: Option<Error>)
    requires arg.StructArg? ==> arg.v.typ.WellFormed() && Conforms(arg.v.typ, arg.v.values)
    requires arg.PointerArg? ==> arg.rec.Valid()
    modifies if arg.PointerArg? then {arg.rec} else {}
    ensures arg.OtherArg? ==> u == null && err == Some(InvalidConfig)
    ensures u != null ==> u.Valid() && u.byPointer == arg.PointerArg?
    ensures u != null && arg.PointerArg? ==> u.config == arg.rec && u.config.calls == old(arg.rec.calls)
    ensures u != null && arg.StructArg? ==> fresh(u.config) && u.config.typ == arg.v.typ && u.config.calls == []
    ensures u != null ==>
      var start := if arg.PointerArg? then old(arg.rec.values) else arg.v.values;
      var p := Apply(u.Binding(), u.fieldsMeta, start, SeedBatch(keys, u.fieldsMeta, getString));
      u.config.values == p.values && err == p.failure
    ensures u == null ==> err.Some?
  {
    u, err := NewConfigUpdater(arg, parseFloat);
    if err.Some? {
      return null, err;
    }
    err := u.Seed(keys, getString);
  }

  // ---------------------------------------------------------------------------------------------
  // The test fixture: two bound fields sharing the pointer-receiver callback OnDb, three skipped ones.

  function TestConfigType(): StructType {
    StructType(
      [ FieldDecl("DbHost", String, false, true, map["apollo_key" := "DB_HOST", "apollo_callback" := "OnDb"]),
        FieldDecl("DbPort", Uint, false, true, map["apollo_callback" := "OnDb", "apollo_default" := "80"]),
        FieldDecl("onDbCalled", Bool, false, false, map[]),
        FieldDecl("oldDbHost", String, false, false, map[]),
        FieldDecl("oldDbPort", Uint, false, false, map[]) ],
      {}, {"OnDb"}, {})
  }

  /** The table of the fixture, keyed by the tag for DbHost and by the field name for DbPort. */
  lemma TestConfigTable()
    ensures Table(TestConfigType().fields) == map[
      "DB_HOST" := FieldMeta("DbHost", "DB_HOST", "OnDb", ""),
      "DbPort" := FieldMeta("DbPort", "DbPort", "OnDb", "80")]
  {
    var fs := TestConfigType().fields;
    assert Meta(fs[0]) == FieldMeta("DbHost", "DB_HOST", "OnDb", "");
    assert Meta(fs[1]) == FieldMeta("DbPort", "DbPort", "OnDb", "80");
    assert Bound(fs[0]) && Bound(fs[1]) && !Bound(fs[2]) && !Bound(fs[3]) && !Bound(fs[4]);
    assert fs[..1][..0] == [] && fs[..2][..1] == fs[..1] && fs[..3][..2] == fs[..2];
    assert fs[..4][..3] == fs[..3] && fs[..5][..4] == fs[..4] && fs[..5] == fs;
    assert Table(fs[..1]) == map["DB_HOST" := Meta(fs[0])];
    assert Table(fs[..2]) == map["DB_HOST" := Meta(fs[0]), "DbPort" := Meta(fs[1])];
    assert Table(fs[..3]) == Table(fs[..2]);
    assert Table(fs[..4]) == Table(fs[..2]);
    assert Table(fs[..5]) == Table(fs[..2]);
  }

  /** Handed over by value the fixture lacks OnDb, whose receiver is a pointer; by pointer it has it. */
  lemma TestConfigCallbacks()
    ensures FirstBadCallback(TestConfigType().fields, TestConfigType().MethodSet(false)) == Some("OnDb")
    ensures FirstBadCallback(TestConfigType().fields, TestConfigType().MethodSet(true)).None?
  {
    var fs := TestConfigType().fields;
    var byValue := TestConfigType().MethodSet(false);
    var byPointer := TestConfigType().MethodSet(true);
    assert Callback(fs[0]) == "OnDb" && Callback(fs[1]) == "OnDb";
    assert !Bound(fs[2]) && !Bound(fs[3]) && !Bound(fs[4]);
    assert fs[..1][..0] == [] && fs[..2][..1] == fs[..1] && fs[..3][..2] == fs[..2];
    assert fs[..4][..3] == fs[..3] && fs[..5][..4] == fs[..4] && fs[..5] == fs;
    assert FirstBadCallback(fs[..1], byValue) == Some("OnDb");
    FirstBadPrefix(fs, 1, byValue);
    assert FirstBadCallback(fs[..1], byPointer).None?;
    assert FirstBadCallback(fs[..2], byPointer).None?;
    assert FirstBadCallback(fs[..3], byPointer).None?;
    assert FirstBadCallback(fs[..4], byPointer).None?;
    assert FirstBadCallback(fs[..5], byPointer).None?;
  }

  /** A settable unsigned field of a predeclared type reads back every number it holds. */
  lemma FieldWriteUnsignedRoundTrip(b: Binder, fieldName: string, i: nat, n: nat)
    requires FieldIndex(b.typ.fields, fieldName) == Some(i) && b.byPointer
    requires i < |b.typ.fields| && b.typ.fields[i].exported && !b.typ.fields[i].definedType
    requires b.typ.fields[i].kind.IsUnsigned() && n < Pow2(b.typ.fields[i].kind.Bits())
    ensures FieldWrite(b, fieldName, FormatNat(n)) == Ok((i, UintV(n)))
  {
    CoerceUnsignedRoundTrip(b.typ.fields[i].kind, n, b.parseFloat);
    FieldWriteStores(b, fieldName, FormatNat(n), i, UintV(n));
  }

  /** A settable field of a predeclared type receives the converted value. */
  lemma FieldWriteStores(b: Binder, fieldName: string, raw: string, i: nat, v: Value)
    requires FieldIndex(b.typ.fields, fieldName) == Some(i) && b.byPointer
    requires i < |b.typ.fields| && b.typ.fields[i].exported && !b.typ.fields[i].definedType
    requires Coerce(b.typ.fields[i].kind, raw, b.parseFloat) == Ok(v)
    ensures FieldWrite(b, fieldName, raw) == Ok((i, v))
  {
  }

  /**
   * A struct { Timeout T } handed over by pointer, where T is a defined type over a signed
   * integer kind, as time.Duration is over int64: "5" parses, but storing it panics; a value
   * that does not parse is the parse error, returned before Set is reached.
   */
  lemma DefinedFieldPanics(kind: Kind, parseFloat: FloatParser)
    requires kind.IsSigned()
    ensures var b := Binder(StructType([FieldDecl("Timeout", kind, true, true, map[])], {}, {}, {}), true, parseFloat);
      var fn := SignedParser(kind);
      && FieldWrite(b, "Timeout", "5") == Err(AssignPanic("Timeout"))
      && FieldWrite(b, "Timeout", "5s") == Err(Parse(NumError(fn, "5s", Syntax)))
  {
    var b := Binder(StructType([FieldDecl("Timeout", kind, true, true, map[])], {}, {}, {}), true, parseFloat);
    var fn := SignedParser(kind);
    assert FieldIndex(b.typ.fields, "Timeout") == Some(0);
    ParseSmall(kind, "5", 5);
    TrailingLetter(fn, kind.Bits());
    assert CoerceSigned(kind, "5s") == Err(Parse(NumError(fn, "5s", Syntax)));
    assert !IsSpace("5"[0]) && !IsSpace("5s"[0]);
    assert Coerce(kind, "5", parseFloat) == CoerceSigned(kind, "5");
    assert Coerce(kind, "5s", parseFloat) == CoerceSigned(kind, "5s");
  }

  /** A one-digit numeral parses in every signed kind. */
  lemma ParseSmall(kind: Kind, s: string, d: nat)
    requires kind.IsSigned() && d < 10 && s == [DigitChar(d)]
    ensures CoerceSigned(kind, s) == Ok(IntV(d))
  {
    Pow2Exceeds(kind.Bits() - 1);
    ParseIntRoundTrip(SignedParser(kind), d, kind.Bits());
  }

  /**
   * setValue("DbPort", v) on the fixture by pointer stores the number v writes in decimal, for
   * every number a uint holds ("8080" stores 8080).
   */
  lemma TestConfigSetPort(n: nat, parseFloat: FloatParser)
    requires n < Pow2(Uint.Bits())
    ensures FieldWrite(Binder(TestConfigType(), true, parseFloat), "DbPort", FormatNat(n)) == Ok((1, UintV(n)))
  {
    TestConfigPortField();
    FieldWriteUnsignedRoundTrip(Binder(TestConfigType(), true, parseFloat), "DbPort", 1, n);
  }

  /** DbPort is the second field of the fixture: exported, of the predeclared type uint. */
  lemma TestConfigPortField()
    ensures var fs := TestConfigType().fields;
      && FieldIndex(fs, "DbPort") == Some(1)
      && fs[1].kind == Uint && fs[1].exported && !fs[1].definedType
  {
    var fs := TestConfigType().fields;
    assert fs[0].name != "DbPort" && fs[1].name == "DbPort";
  }
}
