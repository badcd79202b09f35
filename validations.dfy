/**
 * The zod schemas of src/lib/validations.ts. A schema is data (the
 * `Schema` datatype, one constructor per zod builder used there) and
 * `Parse` is its safeParse: the value zod returns and the issues it
 * collects, in order. A parse succeeds exactly when it collects no issue.
 * The library's own format checks (email, cuid, url) and JavaScript's
 * `Number(...)` coercion of text are parameters, gathered in `Formats`.
 */
module Validations {
  import opened Wrappers

  /** A JavaScript value as zod sees it. */
  datatype Value =
    | Undefined
    | Null
    | Bool(b: bool)
    | Num(x: real)
    | Str(s: string)
    | Date(ms: int)
    | Arr(items: seq<Value>)
    | Obj(fields: map<string, Value>)

  datatype PathElem = Key(key: string) | Index(index: nat)

  datatype IssueCode = InvalidType | InvalidEnumValue | TooSmall | TooBig | InvalidString

  /** A zod issue; `message` is the schema's custom message, None for the library's default. */
  datatype Issue = Issue(code: IssueCode, path: seq<PathElem>, message: Option<string>)

  datatype Formats = Formats(
    isEmail: string -> bool,
    isCuid: string -> bool,
    isUrl: string -> bool,
    numberOf: string -> Option<real>)

  datatype NumCheck = IsInt | Positive | Gte(min: real) | Lte(max: real)

  datatype StrCheck =
    | MinLen(n: nat, msg: Option<string>)
    | MaxLen(n: nat, msg: Option<string>)
    | Length(n: nat)
    | Email(msg: Option<string>)
    | Cuid
    | Url
    /** A regex `^[...]+$`: one or more characters, each from the class. */
    | OneOrMoreOf(inClass: char -> bool, msg: Option<string>)

  datatype Schema =
    | NumberS(coerce: bool, numChecks: seq<NumCheck>)
    | StringS(strChecks: seq<StrCheck>)
    | BooleanS
    | DateS
    | EnumS(options: seq<string>)
    | AnyS
    | OptionalS(inner: Schema)
    | DefaultS(inner: Schema, defaultValue: Value)
    | ArrayS(element: Schema)
    | ObjectS(fields: seq<Field>)

  datatype Field = Field(key: string, schema: Schema)

  datatype Parsed = Parsed(value: Value, issues: seq<Issue>)

  function Lookup(m: map<string, Value>, k: string): Value {
    if k in m then m[k] else Undefined
  }

  predicate IsInteger(x: real) {
    x.Floor as real == x
  }

  predicate NumHolds(c: NumCheck, x: real) {
    match c
    case IsInt => IsInteger(x)
    case Positive => x > 0.0
    case Gte(m) => x >= m
    case Lte(m) => x <= m
  }

  /** Every failing check of the list contributes one issue, in order. */
  function NumIssues(cs: seq<NumCheck>, x: real, path: seq<PathElem>): (r: seq<Issue>)
    ensures r == [] <==> forall i | 0 <= i < |cs| :: NumHolds(cs[i], x)
  {
    if cs == [] then []
    else
      var code := match cs[0]
        case IsInt => InvalidType
        case Lte(_) => TooBig
        case _ => TooSmall;
      var first := if NumHolds(cs[0], x) then [] else [Issue(code, path, None)];
      var rest := NumIssues(cs[1..], x, path);
      assert forall i | 1 <= i < |cs| :: cs[i] == cs[1..][i - 1];
      first + rest
  }

  predicate StrHolds(fmt: Formats, c: StrCheck, s: string) {
    match c
    case MinLen(n, _) => |s| >= n
    case MaxLen(n, _) => |s| <= n
    case Length(n) => |s| == n
    case Email(_) => fmt.isEmail(s)
    case Cuid => fmt.isCuid(s)
    case Url => fmt.isUrl(s)
    case OneOrMoreOf(inClass, _) => |s| >= 1 && forall i | 0 <= i < |s| :: inClass(s[i])
  }

  function StrIssue(c: StrCheck, s: string, path: seq<PathElem>): Issue {
    match c
    case MinLen(_, msg) => Issue(TooSmall, path, msg)
    case MaxLen(_, msg) => Issue(TooBig, path, msg)
    case Length(n) => Issue(if |s| < n then TooSmall else TooBig, path, None)
    case Email(msg) => Issue(InvalidString, path, msg)
    case Cuid => Issue(InvalidString, path, None)
    case Url => Issue(InvalidString, path, None)
    case OneOrMoreOf(_, msg) => Issue(InvalidString, path, msg)
  }

  function StrIssues(fmt: Formats, cs: seq<StrCheck>, s: string, path: seq<PathElem>): (r: seq<Issue>)
    ensures r == [] <==> forall i | 0 <= i < |cs| :: StrHolds(fmt, cs[i], s)
  {
    if cs == [] then []
    else
      var first := if StrHolds(fmt, cs[0], s) then [] else [StrIssue(cs[0], s, path)];
      var rest := StrIssues(fmt, cs[1..], s, path);
      assert forall i | 1 <= i < |cs| :: cs[i] == cs[1..][i - 1];
      first + rest
  }

  /** JavaScript's `Number(v)`; None stands for NaN. */
  function NumberOf(fmt: Formats, v: Value): Option<real> {
    match v
    case Undefined => None
    case Null => Some(0.0)
    case Bool(b) => Some(if b then 1.0 else 0.0)
    case Num(x) => Some(x)
    case Str(s) => fmt.numberOf(s)
    case Date(ms) => Some(ms as real)
    case _ => None
  }

  function TypeIssue(path: seq<PathElem>): Parsed {
    Parsed(Undefined, [Issue(InvalidType, path, None)])
  }

  function Parse(fmt: Formats, s: Schema, v: Value, path: seq<PathElem>): Parsed
    decreases s, 1, 0
  {
    match s
    case NumberS(coerce, cs) =>
      var n := if coerce then NumberOf(fmt, v) else if v.Num? then Some(v.x) else None;
      if n.None? then TypeIssue(path) else Parsed(Num(n.value), NumIssues(cs, n.value, path))
    case StringS(cs) =>
      if v.Str? then Parsed(v, StrIssues(fmt, cs, v.s, path)) else TypeIssue(path)
    case BooleanS =>
      if v.Bool? then Parsed(v, []) else TypeIssue(path)
    case DateS =>
      if v.Date? then Parsed(v, []) else TypeIssue(path)
    case EnumS(options) =>
      if !v.Str? then TypeIssue(path)
      else if v.s in options then Parsed(v, [])
      else Parsed(v, [Issue(InvalidEnumValue, path, None)])
    case AnyS =>
      Parsed(v, [])
    case OptionalS(inner) =>
      if v == Undefined then Parsed(Undefined, []) else Parse(fmt, inner, v, path)
    case DefaultS(inner, d) =>
      Parse(fmt, inner, if v == Undefined then d else v, path)
    case ArrayS(_) =>
      if v.Arr? then
        var r := ParseItems(fmt, s, v.items, 0, path);
        Parsed(Arr(r.0), r.1)
      else TypeIssue(path)
    case ObjectS(fs) =>
      if v.Obj? then
        var r := ParseFields(fmt, s, fs, v.fields, path);
        Parsed(Obj(r.0), r.1)
      else TypeIssue(path)
  }

  /** The elements of an array from position `offset` on. */
  function ParseItems(fmt: Formats, parent: Schema, items: seq<Value>, offset: nat, path: seq<PathElem>)
    : (r: (seq<Value>, seq<Issue>))
    requires parent.ArrayS?
    ensures |r.0| == |items|
    decreases parent, 0, |items|
  {
    if items == [] then ([], [])
    else
      var p := Parse(fmt, parent.element, items[0], path + [Index(offset)]);
      var rest := ParseItems(fmt, parent, items[1..], offset + 1, path);
      ([p.value] + rest.0, p.issues + rest.1)
  }

  /**
   * The shape's keys, in order; unknown keys are stripped, and a key whose
   * parsed value is undefined is kept only when the input had it.
   */
  function ParseFields(fmt: Formats, parent: Schema, fs: seq<Field>, input: map<string, Value>, path: seq<PathElem>)
    : (r: (map<string, Value>, seq<Issue>))
    requires parent.ObjectS? && forall f | f in fs :: f in parent.fields
    decreases parent, 0, |fs|
  {
    if fs == [] then (map[], [])
    else
      var f := fs[0];
      assert f in parent.fields;
      var p := Parse(fmt, f.schema, Lookup(input, f.key), path + [Key(f.key)]);
      var rest := ParseFields(fmt, parent, fs[1..], input, path);
      (if p.value != Undefined || f.key in input then rest.0[f.key := p.value] else rest.0, p.issues + rest.1)
  }

  predicate Accepts(fmt: Formats, s: Schema, v: Value) {
    Parse(fmt, s, v, []).issues == []
  }

  /** One shape entry, parsed from the input object. */
  function FieldResult(fmt: Formats, f: Field, input: map<string, Value>, path: seq<PathElem>): Parsed {
    Parse(fmt, f.schema, Lookup(input, f.key), path + [Key(f.key)])
  }

  predicate FieldsAccept(fmt: Formats, fs: seq<Field>, input: map<string, Value>, path: seq<PathElem>) {
    forall i | 0 <= i < |fs| :: FieldResult(fmt, fs[i], input, path).issues == []
  }

  predicate DistinctKeys(fs: seq<Field>) {
    forall i, j | 0 <= i < j < |fs| :: fs[i].key != fs[j].key
  }

  /** The issues of an object are those of its entries: none exactly when every entry parses. */
  lemma {:induction false} FieldsIssues(fmt: Formats, parent: Schema, fs: seq<Field>, input: map<string, Value>, path: seq<PathElem>)
    requires parent.ObjectS? && forall f | f in fs :: f in parent.fields
    ensures ParseFields(fmt, parent, fs, input, path).1 == [] <==> FieldsAccept(fmt, fs, input, path)
    decreases |fs|
  {
    if fs != [] {
      FieldsIssues(fmt, parent, fs[1..], input, path);
      assert forall i | 1 <= i < |fs| :: fs[i] == fs[1..][i - 1];
    }
  }

  lemma TailDistinct(fs: seq<Field>)
    requires fs != [] && DistinctKeys(fs)
    ensures DistinctKeys(fs[1..])
    ensures forall i | 1 <= i < |fs| :: fs[i].key != fs[0].key && fs[i] == fs[1..][i - 1]
  {
    var tail := fs[1..];
    forall i, j | 0 <= i < j < |tail|
      ensures tail[i].key != tail[j].key
    {
      assert tail[i] == fs[i + 1] && tail[j] == fs[j + 1];
    }
  }

  /** The parsed object has no key outside the shape: unknown keys are stripped. */
  lemma {:induction false} FieldsOutputKeys(fmt: Formats, parent: Schema, fs: seq<Field>, input: map<string, Value>, path: seq<PathElem>)
    requires parent.ObjectS? && forall f | f in fs :: f in parent.fields
    ensures forall k | k in ParseFields(fmt, parent, fs, input, path).0 :: exists i | 0 <= i < |fs| :: fs[i].key == k
    decreases |fs|
  {
    if fs != [] {
      var tail := fs[1..];
      FieldsOutputKeys(fmt, parent, tail, input, path);
      var out := ParseFields(fmt, parent, fs, input, path).0;
      var rest := ParseFields(fmt, parent, tail, input, path).0;
      forall k | k in out
        ensures exists i | 0 <= i < |fs| :: fs[i].key == k
      {
        if k != fs[0].key {
          assert k in rest;
          var i :| 0 <= i < |tail| && tail[i].key == k;
          assert fs[i + 1].key == k;
        }
      }
    }
  }

  /**
   * Under each shape key the parsed object holds that entry's parsed value,
   * present exactly when it is defined or the input had the key.
   */
  lemma {:induction false} FieldsOutputValues(fmt: Formats, parent: Schema, fs: seq<Field>, input: map<string, Value>, path: seq<PathElem>)
    requires parent.ObjectS? && forall f | f in fs :: f in parent.fields
    requires DistinctKeys(fs)
    ensures var out := ParseFields(fmt, parent, fs, input, path).0;
      forall i | 0 <= i < |fs| ::
        var p := FieldResult(fmt, fs[i], input, path);
        (fs[i].key in out <==> p.value != Undefined || fs[i].key in input)
        && (fs[i].key in out ==> out[fs[i].key] == p.value)
    decreases |fs|
  {
    if fs != [] {
      TailDistinct(fs);
      FieldsOutputValues(fmt, parent, fs[1..], input, path);
      FieldsOutputKeys(fmt, parent, fs[1..], input, path);
      var out := ParseFields(fmt, parent, fs, input, path).0;
      var rest := ParseFields(fmt, parent, fs[1..], input, path).0;
      forall i | 1 <= i < |fs|
        ensures var p := FieldResult(fmt, fs[i], input, path);
          (fs[i].key in out <==> p.value != Undefined || fs[i].key in input)
          && (fs[i].key in out ==> out[fs[i].key] == p.value)
      {
        var k := fs[i].key;
        assert fs[i] == fs[1..][i - 1];
        assert k in out <==> k in rest;
      }
    }
  }

  lemma ObjectAccepts(fmt: Formats, fs: seq<Field>, v: Value, path: seq<PathElem>)
    ensures Parse(fmt, ObjectS(fs), v, path).issues == [] <==> v.Obj? && FieldsAccept(fmt, fs, v.fields, path)
  {
    if v.Obj? {
      FieldsIssues(fmt, ObjectS(fs), fs, v.fields, path);
    }
  }

  lemma ObjectOutput(fmt: Formats, fs: seq<Field>, v: Value, path: seq<PathElem>)
    requires v.Obj? && DistinctKeys(fs)
    ensures var out := Parse(fmt, ObjectS(fs), v, path).value;
      && out.Obj?
      && (forall k | k in out.fields :: exists i | 0 <= i < |fs| :: fs[i].key == k)
      && forall i | 0 <= i < |fs| ::
           var p := FieldResult(fmt, fs[i], v.fields, path);
           (fs[i].key in out.fields <==> p.value != Undefined || fs[i].key in v.fields)
           && (fs[i].key in out.fields ==> out.fields[fs[i].key] == p.value)
  {
    FieldsOutputKeys(fmt, ObjectS(fs), fs, v.fields, path);
    FieldsOutputValues(fmt, ObjectS(fs), fs, v.fields, path);
  }

  // Unfolding the quantifiers of short literal check and field lists.

  lemma NumChecks2(a: NumCheck, b: NumCheck, x: real)
    ensures (forall i | 0 <= i < 2 :: NumHolds([a, b][i], x)) <==> NumHolds(a, x) && NumHolds(b, x)
  {
    var cs := [a, b];
    assert cs[0] == a && cs[1] == b;
  }

  lemma NumChecks3(a: NumCheck, b: NumCheck, c: NumCheck, x: real)
    ensures (forall i | 0 <= i < 3 :: NumHolds([a, b, c][i], x))
      <==> NumHolds(a, x) && NumHolds(b, x) && NumHolds(c, x)
  {
    var cs := [a, b, c];
    assert cs[0] == a && cs[1] == b && cs[2] == c;
    if NumHolds(a, x) && NumHolds(b, x) && NumHolds(c, x) {
      forall i | 0 <= i < 3
        ensures NumHolds(cs[i], x)
      {
        assert i == 0 || i == 1 || i == 2;
      }
    }
  }

  lemma NumChecks4(a: NumCheck, b: NumCheck, c: NumCheck, d: NumCheck, x: real)
    ensures (forall i | 0 <= i < 4 :: NumHolds([a, b, c, d][i], x))
      <==> NumHolds(a, x) && NumHolds(b, x) && NumHolds(c, x) && NumHolds(d, x)
  {
    var cs := [a, b, c, d];
    assert cs[0] == a && cs[1] == b && cs[2] == c && cs[3] == d;
    if NumHolds(a, x) && NumHolds(b, x) && NumHolds(c, x) && NumHolds(d, x) {
      forall i | 0 <= i < 4
        ensures NumHolds(cs[i], x)
      {
        assert i == 0 || i == 1 || i == 2 || i == 3;
      }
    }
  }

  lemma StrChecks2(fmt: Formats, a: StrCheck, b: StrCheck, s: string)
    ensures (forall i | 0 <= i < 2 :: StrHolds(fmt, [a, b][i], s)) <==> StrHolds(fmt, a, s) && StrHolds(fmt, b, s)
  {
    var cs := [a, b];
    assert cs[0] == a && cs[1] == b;
  }

  lemma StrChecks3(fmt: Formats, a: StrCheck, b: StrCheck, c: StrCheck, s: string)
    ensures (forall i | 0 <= i < 3 :: StrHolds(fmt, [a, b, c][i], s))
      <==> StrHolds(fmt, a, s) && StrHolds(fmt, b, s) && StrHolds(fmt, c, s)
  {
    var cs := [a, b, c];
    assert cs[0] == a && cs[1] == b && cs[2] == c;
    if StrHolds(fmt, a, s) && StrHolds(fmt, b, s) && StrHolds(fmt, c, s) {
      forall i | 0 <= i < 3
        ensures StrHolds(fmt, cs[i], s)
      {
        assert i == 0 || i == 1 || i == 2;
      }
    }
  }

  lemma Fields2(fmt: Formats, f: Field, g: Field, input: map<string, Value>)
    ensures FieldsAccept(fmt, [f, g], input, [])
      <==> FieldResult(fmt, f, input, []).issues == [] && FieldResult(fmt, g, input, []).issues == []
  {
    var fs := [f, g];
    assert fs[0] == f && fs[1] == g;
  }

  lemma Fields3(fmt: Formats, f: Field, g: Field, h: Field, input: map<string, Value>)
    ensures FieldsAccept(fmt, [f, g, h], input, [])
      <==> FieldResult(fmt, f, input, []).issues == [] && FieldResult(fmt, g, input, []).issues == []
           && FieldResult(fmt, h, input, []).issues == []
  {
    var fs := [f, g, h];
    assert fs[0] == f && fs[1] == g && fs[2] == h;
    if FieldResult(fmt, f, input, []).issues == [] && FieldResult(fmt, g, input, []).issues == []
       && FieldResult(fmt, h, input, []).issues == [] {
      forall i | 0 <= i < 3
        ensures FieldResult(fmt, fs[i], input, []).issues == []
      {
        assert i == 0 || i == 1 || i == 2;
      }
    }
  }

  // The schemas of src/lib/validations.ts.

  predicate UsernameChar(c: char) {
    'a' <= c <= 'z' || 'A' <= c <= 'Z' || '0' <= c <= '9' || c == '.' || c == '_' || c == '-'
  }

  const UsernameSchema := StringS([
    MinLen(3, Some("Username must be at least 3 characters")),
    MaxLen(20, Some("Username must be less than 20 characters")),
    OneOrMoreOf(UsernameChar, Some("Username can only contain letters, numbers, periods, underscores, and hyphens"))])

  const PasswordSchema := StringS([
    MinLen(6, Some("Password must be at least 6 characters")),
    MaxLen(100, Some("Password must be less than 100 characters"))])

  const RegisterSchema := ObjectS([
    Field("email", StringS([Email(Some("Invalid email address"))])),
    Field("username", UsernameSchema),
    Field("password", PasswordSchema)])

  const LoginSchema := ObjectS([
    Field("email", StringS([Email(Some("Invalid email address"))])),
    Field("password", StringS([MinLen(1, Some("Password is required"))]))])

  const BaseEntrySchema := NumberS(false, [IsInt, Positive, Gte(10.0), Lte(1000.0)])
  const LeverageSchema := NumberS(false, [IsInt, Gte(1.0), Lte(5.0)])
  const MoveIndexSchema := NumberS(false, [IsInt, Gte(0.0), Lte(8.0)])
  const CuidSchema := StringS([Cuid])

  const JoinQueueSchema := ObjectS([Field("baseEntry", BaseEntrySchema), Field("leverage", LeverageSchema)])
  const MoveSchema := ObjectS([Field("index0to8", MoveIndexSchema)])
  const MatchIdSchema := ObjectS([Field("matchId", CuidSchema)])
  const DepositSchema := ObjectS([Field("amount", NumberS(false, [IsInt, Positive, Gte(10.0), Lte(10000.0)]))])
  const WithdrawSchema := ObjectS([Field("amount", NumberS(false, [IsInt, Positive]))])

  const BanUserSchema := ObjectS([
    Field("userId", CuidSchema), Field("banned", BooleanS), Field("reason", OptionalS(StringS([])))])

  const RefundMatchSchema := ObjectS([
    Field("matchId", CuidSchema), Field("reason", StringS([MinLen(1, Some("Reason is required"))]))])

  const DrawRefundOptions := ["full", "none"]
  const NodeEnvOptions := ["development", "test", "production"]

  const EnvSchema := ObjectS([
    Field("DATABASE_URL", StringS([Url])),
    Field("NEXTAUTH_SECRET", StringS([MinLen(1, None)])),
    Field("NEXTAUTH_URL", StringS([Url])),
    Field("REDIS_URL", OptionalS(StringS([Url]))),
    Field("REDIS_TOKEN", OptionalS(StringS([]))),
    Field("DRAW_REFUND", DefaultS(EnumS(DrawRefundOptions), Str("full"))),
    Field("TURN_MS", DefaultS(NumberS(true, [Positive]), Num(20000.0))),
    Field("RESTRICTED_STATES", DefaultS(StringS([]), Str(""))),
    Field("NODE_ENV", DefaultS(EnumS(NodeEnvOptions), Str("development")))])

  const ApiResponseSchema := ObjectS([
    Field("success", BooleanS), Field("data", OptionalS(AnyS)),
    Field("error", OptionalS(StringS([]))), Field("message", OptionalS(StringS([])))])

  const UserProfileSchema := ObjectS([
    Field("id", StringS([])), Field("email", StringS([])), Field("username", StringS([])),
    Field("rating", NumberS(false, [])), Field("createdAt", DateS),
    Field("wallet", ObjectS([Field("balance", NumberS(false, [])), Field("locked", NumberS(false, []))]))])

  const StatusOptions := ["WAITING", "ACTIVE", "COMPLETED", "CANCELLED"]
  const SymbolOptions := ["X", "O"]
  const ReasonOptions := ["WIN", "LOSS", "DRAW", "FORFEIT", "CANCELLED"]

  const ParticipantSchema := ObjectS([
    Field("id", StringS([])), Field("userId", StringS([])), Field("symbol", EnumS(SymbolOptions)),
    Field("user", ObjectS([Field("username", StringS([])), Field("rating", NumberS(false, []))]))])

  const MatchMoveSchema := ObjectS([
    Field("id", StringS([])), Field("index0to8", NumberS(false, [])), Field("symbol", EnumS(SymbolOptions)),
    Field("moveNo", NumberS(false, [])), Field("createdAt", DateS), Field("userId", StringS([]))])

  const MatchStateSchema := ObjectS([
    Field("id", StringS([])),
    Field("status", EnumS(StatusOptions)),
    Field("board", StringS([Length(9)])),
    Field("turn", EnumS(SymbolOptions)),
    Field("entryFinalE", NumberS(false, [])),
    Field("leverage", NumberS(false, [])),
    Field("participants", ArrayS(ParticipantSchema)),
    Field("moves", ArrayS(MatchMoveSchema)),
    Field("winnerId", OptionalS(StringS([]))),
    Field("reason", OptionalS(EnumS(ReasonOptions))),
    Field("createdAt", DateS),
    Field("startedAt", OptionalS(DateS)),
    Field("endedAt", OptionalS(DateS))])

  const SocketMoveSchema := ObjectS([Field("matchId", CuidSchema), Field("index0to8", MoveIndexSchema)])
  const SocketJoinRoomSchema := ObjectS([Field("matchId", CuidSchema)])

  /** A JavaScript number that is an integer within [lo, hi]. */
  predicate IntIn(v: Value, lo: int, hi: int) {
    v.Num? && IsInteger(v.x) && lo as real <= v.x <= hi as real
  }

  lemma BaseEntryAccepts(fmt: Formats, v: Value, path: seq<PathElem>)
    ensures Parse(fmt, BaseEntrySchema, v, path).issues == [] <==> IntIn(v, 10, 1000)
    ensures IntIn(v, 10, 1000) ==> Parse(fmt, BaseEntrySchema, v, path).value == v
  {
    if v.Num? {
      NumChecks4(IsInt, Positive, Gte(10.0), Lte(1000.0), v.x);
    }
  }

  lemma LeverageAccepts(fmt: Formats, v: Value, path: seq<PathElem>)
    ensures Parse(fmt, LeverageSchema, v, path).issues == [] <==> IntIn(v, 1, 5)
    ensures IntIn(v, 1, 5) ==> Parse(fmt, LeverageSchema, v, path).value == v
  {
    if v.Num? {
      NumChecks3(IsInt, Gte(1.0), Lte(5.0), v.x);
    }
  }

  lemma MoveIndexAccepts(fmt: Formats, v: Value, path: seq<PathElem>)
    ensures Parse(fmt, MoveIndexSchema, v, path).issues == [] <==> IntIn(v, 0, 8)
    ensures IntIn(v, 0, 8) ==> Parse(fmt, MoveIndexSchema, v, path).value == v
  {
    if v.Num? {
      NumChecks3(IsInt, Gte(0.0), Lte(8.0), v.x);
    }
  }

  lemma DepositAmountAccepts(fmt: Formats, v: Value, path: seq<PathElem>)
    ensures Parse(fmt, DepositSchema.fields[0].schema, v, path).issues == [] <==> IntIn(v, 10, 10000)
    ensures IntIn(v, 10, 10000) ==> Parse(fmt, DepositSchema.fields[0].schema, v, path).value == v
  {
    if v.Num? {
      NumChecks4(IsInt, Positive, Gte(10.0), Lte(10000.0), v.x);
    }
  }

  lemma WithdrawAmountAccepts(fmt: Formats, v: Value, path: seq<PathElem>)
    ensures Parse(fmt, WithdrawSchema.fields[0].schema, v, path).issues == [] <==> v.Num? && IsInteger(v.x) && v.x >= 1.0
    ensures v.Num? && IsInteger(v.x) && v.x >= 1.0 ==> Parse(fmt, WithdrawSchema.fields[0].schema, v, path).value == v
  {
    if v.Num? {
      NumChecks2(IsInt, Positive, v.x);
    }
  }

  /** A defined entry of an accepted object lands in the output under its key. */
  lemma ObjectEntry(fmt: Formats, fs: seq<Field>, v: Value, i: nat)
    requires v.Obj? && DistinctKeys(fs) && i < |fs|
    requires FieldResult(fmt, fs[i], v.fields, []).value != Undefined
    ensures var out := Parse(fmt, ObjectS(fs), v, []).value;
      out.Obj? && fs[i].key in out.fields && out.fields[fs[i].key] == FieldResult(fmt, fs[i], v.fields, []).value
  {
    ObjectOutput(fmt, fs, v, []);
  }

  /** A single-entry object is accepted exactly when its one entry is. */
  lemma Fields1(fmt: Formats, f: Field, input: map<string, Value>)
    ensures FieldsAccept(fmt, [f], input, []) <==> FieldResult(fmt, f, input, []).issues == []
  {
    assert [f][0] == f;
  }

  datatype JoinQueueInput = JoinQueueInput(baseEntry: int, leverage: int)

  /** `joinQueueSchema.parse`: an integer stake in [10, 1000] and an integer leverage in [1, 5]. */
  function ParseJoinQueue(fmt: Formats, v: Value): (r: Result<JoinQueueInput, seq<Issue>>)
    ensures r.Success? <==>
      v.Obj? && IntIn(Lookup(v.fields, "baseEntry"), 10, 1000) && IntIn(Lookup(v.fields, "leverage"), 1, 5)
    ensures r.Success? ==>
      && 10 <= r.value.baseEntry <= 1000 && 1 <= r.value.leverage <= 5
      && Lookup(v.fields, "baseEntry") == Num(r.value.baseEntry as real)
      && Lookup(v.fields, "leverage") == Num(r.value.leverage as real)
    ensures r.Failure? ==> r.error != [] && r.error == Parse(fmt, JoinQueueSchema, v, []).issues
  {
    var p := Parse(fmt, JoinQueueSchema, v, []);
    var fs := JoinQueueSchema.fields;
    ObjectAccepts(fmt, fs, v, []);
    if v.Obj? then
      Fields2(fmt, fs[0], fs[1], v.fields);
      BaseEntryAccepts(fmt, Lookup(v.fields, "baseEntry"), [] + [Key("baseEntry")]);
      LeverageAccepts(fmt, Lookup(v.fields, "leverage"), [] + [Key("leverage")]);
      if p.issues != [] then Failure(p.issues)
      else
        ObjectEntry(fmt, fs, v, 0);
        ObjectEntry(fmt, fs, v, 1);
        var out := p.value.fields;
        Success(JoinQueueInput(out["baseEntry"].x.Floor, out["leverage"].x.Floor))
    else Failure(p.issues)
  }

  /** The stake a validated join request puts at risk lies in [10, 5000]. */
  lemma FinalEntryBounds(input: JoinQueueInput)
    requires 10 <= input.baseEntry <= 1000 && 1 <= input.leverage <= 5
    ensures 10 <= input.baseEntry * input.leverage <= 5000
  {
    assert input.baseEntry * input.leverage <= 1000 * input.leverage;
  }

  datatype MoveInput = MoveInput(index0to8: int)

  /** `moveSchema.parse`: an integer cell index in [0, 8]. */
  function ParseMove(fmt: Formats, v: Value): (r: Result<MoveInput, seq<Issue>>)
    ensures r.Success? <==> v.Obj? && IntIn(Lookup(v.fields, "index0to8"), 0, 8)
    ensures r.Success? ==>
      0 <= r.value.index0to8 <= 8 && Lookup(v.fields, "index0to8") == Num(r.value.index0to8 as real)
    ensures r.Failure? ==> r.error != [] && r.error == Parse(fmt, MoveSchema, v, []).issues
  {
    var p := Parse(fmt, MoveSchema, v, []);
    var fs := MoveSchema.fields;
    ObjectAccepts(fmt, fs, v, []);
    if v.Obj? then
      Fields1(fmt, fs[0], v.fields);
      MoveIndexAccepts(fmt, Lookup(v.fields, "index0to8"), [] + [Key("index0to8")]);
      if p.issues != [] then Failure(p.issues)
      else
        ObjectEntry(fmt, fs, v, 0);
        Success(MoveInput(p.value.fields["index0to8"].x.Floor))
    else Failure(p.issues)
  }

  datatype SocketMoveInput = SocketMoveInput(matchId: string, index0to8: int)

  /** `socketMoveSchema.parse`: a cuid match id and the same cell index bounds as an HTTP move. */
  function ParseSocketMove(fmt: Formats, v: Value): (r: Result<SocketMoveInput, seq<Issue>>)
    ensures r.Success? <==>
      && v.Obj? && Lookup(v.fields, "matchId").Str? && fmt.isCuid(Lookup(v.fields, "matchId").s)
      && IntIn(Lookup(v.fields, "index0to8"), 0, 8)
    ensures r.Success? ==>
      && 0 <= r.value.index0to8 <= 8 && Lookup(v.fields, "index0to8") == Num(r.value.index0to8 as real)
      && Lookup(v.fields, "matchId") == Str(r.value.matchId)
    ensures r.Failure? ==> r.error != [] && r.error == Parse(fmt, SocketMoveSchema, v, []).issues
  {
    var p := Parse(fmt, SocketMoveSchema, v, []);
    var fs := SocketMoveSchema.fields;
    ObjectAccepts(fmt, fs, v, []);
    if v.Obj? then
      Fields2(fmt, fs[0], fs[1], v.fields);
      MoveIndexAccepts(fmt, Lookup(v.fields, "index0to8"), [] + [Key("index0to8")]);
      assert [Cuid][0] == Cuid;
      if p.issues != [] then Failure(p.issues)
      else
        ObjectEntry(fmt, fs, v, 0);
        ObjectEntry(fmt, fs, v, 1);
        var out := p.value.fields;
        Success(SocketMoveInput(out["matchId"].s, out["index0to8"].x.Floor))
    else Failure(p.issues)
  }

  datatype AmountInput = AmountInput(amount: int)

  /** `depositSchema.parse`: an integer amount in [10, 10000]. */
  function ParseDeposit(fmt: Formats, v: Value): (r: Result<AmountInput, seq<Issue>>)
    ensures r.Success? <==> v.Obj? && IntIn(Lookup(v.fields, "amount"), 10, 10000)
    ensures r.Success? ==> 10 <= r.value.amount <= 10000 && Lookup(v.fields, "amount") == Num(r.value.amount as real)
    ensures r.Failure? ==> r.error != [] && r.error == Parse(fmt, DepositSchema, v, []).issues
  {
    var p := Parse(fmt, DepositSchema, v, []);
    var fs := DepositSchema.fields;
    ObjectAccepts(fmt, fs, v, []);
    if v.Obj? then
      Fields1(fmt, fs[0], v.fields);
      DepositAmountAccepts(fmt, Lookup(v.fields, "amount"), [] + [Key("amount")]);
      if p.issues != [] then Failure(p.issues)
      else
        ObjectEntry(fmt, fs, v, 0);
        Success(AmountInput(p.value.fields["amount"].x.Floor))
    else Failure(p.issues)
  }

  /** `withdrawSchema.parse`: a positive integer amount, so at least 1. */
  function ParseWithdraw(fmt: Formats, v: Value): (r: Result<AmountInput, seq<Issue>>)
    ensures r.Success? <==>
      v.Obj? && Lookup(v.fields, "amount").Num? && IsInteger(Lookup(v.fields, "amount").x) && Lookup(v.fields, "amount").x >= 1.0
    ensures r.Success? ==> r.value.amount >= 1 && Lookup(v.fields, "amount") == Num(r.value.amount as real)
    ensures r.Failure? ==> r.error != [] && r.error == Parse(fmt, WithdrawSchema, v, []).issues
  {
    var p := Parse(fmt, WithdrawSchema, v, []);
    var fs := WithdrawSchema.fields;
    ObjectAccepts(fmt, fs, v, []);
    if v.Obj? then
      Fields1(fmt, fs[0], v.fields);
      WithdrawAmountAccepts(fmt, Lookup(v.fields, "amount"), [] + [Key("amount")]);
      if p.issues != [] then Failure(p.issues)
      else
        ObjectEntry(fmt, fs, v, 0);
        Success(AmountInput(p.value.fields["amount"].x.Floor))
    else Failure(p.issues)
  }

  predicate ValidUsername(u: string) {
    3 <= |u| <= 20 && forall i | 0 <= i < |u| :: UsernameChar(u[i])
  }

  predicate ValidPassword(p: string) {
    6 <= |p| <= 100
  }

  lemma UsernameAccepts(fmt: Formats, v: Value, path: seq<PathElem>)
    ensures Parse(fmt, UsernameSchema, v, path).issues == [] <==> v.Str? && ValidUsername(v.s)
    ensures v.Str? ==> Parse(fmt, UsernameSchema, v, path).value == v
  {
    if v.Str? {
      StrChecks3(fmt, UsernameSchema.strChecks[0], UsernameSchema.strChecks[1], UsernameSchema.strChecks[2], v.s);
    }
  }

  lemma PasswordAccepts(fmt: Formats, v: Value, path: seq<PathElem>)
    ensures Parse(fmt, PasswordSchema, v, path).issues == [] <==> v.Str? && ValidPassword(v.s)
    ensures v.Str? ==> Parse(fmt, PasswordSchema, v, path).value == v
  {
    if v.Str? {
      StrChecks2(fmt, PasswordSchema.strChecks[0], PasswordSchema.strChecks[1], v.s);
    }
  }

  datatype RegisterInput = RegisterInput(email: string, username: string, password: string)

  /**
   * `registerSchema.parse`: an email the library accepts, a username of 3
   * to 20 letters, digits, periods, underscores or hyphens, and a password
   * of 6 to 100 characters.
   */
  function ParseRegister(fmt: Formats, v: Value): (r: Result<RegisterInput, seq<Issue>>)
    ensures r.Success? <==>
      && v.Obj?
      && Lookup(v.fields, "email").Str? && fmt.isEmail(Lookup(v.fields, "email").s)
      && Lookup(v.fields, "username").Str? && ValidUsername(Lookup(v.fields, "username").s)
      && Lookup(v.fields, "password").Str? && ValidPassword(Lookup(v.fields, "password").s)
    ensures r.Success? ==>
      && Lookup(v.fields, "email") == Str(r.value.email)
      && Lookup(v.fields, "username") == Str(r.value.username)
      && Lookup(v.fields, "password") == Str(r.value.password)
    ensures r.Failure? ==> r.error != [] && r.error == Parse(fmt, RegisterSchema, v, []).issues
  {
    var p := Parse(fmt, RegisterSchema, v, []);
    var fs := RegisterSchema.fields;
    ObjectAccepts(fmt, fs, v, []);
    if v.Obj? then
      Fields3(fmt, fs[0], fs[1], fs[2], v.fields);
      assert [Email(Some("Invalid email address"))][0] == Email(Some("Invalid email address"));
      UsernameAccepts(fmt, Lookup(v.fields, "username"), [] + [Key("username")]);
      PasswordAccepts(fmt, Lookup(v.fields, "password"), [] + [Key("password")]);
      if p.issues != [] then Failure(p.issues)
      else
        ObjectEntry(fmt, fs, v, 0);
        ObjectEntry(fmt, fs, v, 1);
        ObjectEntry(fmt, fs, v, 2);
        var out := p.value.fields;
        Success(RegisterInput(out["email"].s, out["username"].s, out["password"].s))
    else Failure(p.issues)
  }

  /**
   * An accepted match state has a board of exactly nine characters, one of
   * the four statuses, a turn of X or O, and either no reason or one of the
   * five reasons.
   */
  lemma MatchStateShape(fmt: Formats, v: Value)
    requires Accepts(fmt, MatchStateSchema, v)
    ensures v.Obj?
    ensures Lookup(v.fields, "board").Str? && |Lookup(v.fields, "board").s| == 9
    ensures Lookup(v.fields, "status").Str? && Lookup(v.fields, "status").s in StatusOptions
    ensures Lookup(v.fields, "turn").Str? && Lookup(v.fields, "turn").s in SymbolOptions
    ensures var reason := Lookup(v.fields, "reason");
      reason == Undefined || (reason.Str? && reason.s in ReasonOptions)
  {
    var fs := MatchStateSchema.fields;
    ObjectAccepts(fmt, fs, v, []);
    assert FieldResult(fmt, fs[1], v.fields, []).issues == [];
    assert FieldResult(fmt, fs[2], v.fields, []).issues == [];
    assert FieldResult(fmt, fs[3], v.fields, []).issues == [];
    assert FieldResult(fmt, fs[9], v.fields, []).issues == [];
    assert [Length(9)][0] == Length(9);
  }

  /** The environment entry at shape position `i` as it comes out of an accepted parse. */
  function EnvOut(fmt: Formats, v: Value, i: nat): Value
    requires i < |EnvSchema.fields|
  {
    var out := Parse(fmt, EnvSchema, v, []).value;
    if out.Obj? then Lookup(out.fields, EnvSchema.fields[i].key) else Undefined
  }

  lemma EnvKeysDistinct()
    ensures DistinctKeys(EnvSchema.fields)
  {
  }

  /** DRAW_REFUND is `full` or `none`, and `full` when it is not set. */
  lemma EnvDrawRefund(fmt: Formats, v: Value)
    requires Accepts(fmt, EnvSchema, v)
    ensures EnvOut(fmt, v, 5).Str? && EnvOut(fmt, v, 5).s in DrawRefundOptions
    ensures Lookup(v.fields, "DRAW_REFUND") == Undefined ==> EnvOut(fmt, v, 5) == Str("full")
  {
    var fs := EnvSchema.fields;
    ObjectAccepts(fmt, fs, v, []);
    assert FieldResult(fmt, fs[5], v.fields, []).issues == [];
    EnvKeysDistinct();
    ObjectEntry(fmt, fs, v, 5);
  }

  /** TURN_MS is a positive number, and 20000 when it is not set. */
  lemma EnvTurnMs(fmt: Formats, v: Value)
    requires Accepts(fmt, EnvSchema, v)
    ensures EnvOut(fmt, v, 6).Num? && EnvOut(fmt, v, 6).x > 0.0
    ensures Lookup(v.fields, "TURN_MS") == Undefined ==> EnvOut(fmt, v, 6) == Num(20000.0)
  {
    var fs := EnvSchema.fields;
    ObjectAccepts(fmt, fs, v, []);
    assert FieldResult(fmt, fs[6], v.fields, []).issues == [];
    assert [Positive][0] == Positive;
    EnvKeysDistinct();
    ObjectEntry(fmt, fs, v, 6);
  }

  /** RESTRICTED_STATES is text, and empty when it is not set. */
  lemma EnvRestrictedStates(fmt: Formats, v: Value)
    requires Accepts(fmt, EnvSchema, v)
    ensures EnvOut(fmt, v, 7).Str?
    ensures Lookup(v.fields, "RESTRICTED_STATES") == Undefined ==> EnvOut(fmt, v, 7) == Str("")
  {
    var fs := EnvSchema.fields;
    ObjectAccepts(fmt, fs, v, []);
    assert FieldResult(fmt, fs[7], v.fields, []).issues == [];
    EnvKeysDistinct();
    ObjectEntry(fmt, fs, v, 7);
  }

  /** NODE_ENV is one of its three options, and `development` when it is not set. */
  lemma EnvNodeEnv(fmt: Formats, v: Value)
    requires Accepts(fmt, EnvSchema, v)
    ensures EnvOut(fmt, v, 8).Str? && EnvOut(fmt, v, 8).s in NodeEnvOptions
    ensures Lookup(v.fields, "NODE_ENV") == Undefined ==> EnvOut(fmt, v, 8) == Str("development")
  {
    var fs := EnvSchema.fields;
    ObjectAccepts(fmt, fs, v, []);
    assert FieldResult(fmt, fs[8], v.fields, []).issues == [];
    EnvKeysDistinct();
    ObjectEntry(fmt, fs, v, 8);
  }

  /** Leaving out a defaulted setting never makes the environment fail: each default passes its own schema. */
  lemma EnvDefaultsPass(fmt: Formats)
    ensures FieldResult(fmt, EnvSchema.fields[5], map[], []) == Parsed(Str("full"), [])
    ensures FieldResult(fmt, EnvSchema.fields[6], map[], []) == Parsed(Num(20000.0), [])
    ensures FieldResult(fmt, EnvSchema.fields[7], map[], []) == Parsed(Str(""), [])
    ensures FieldResult(fmt, EnvSchema.fields[8], map[], []) == Parsed(Str("development"), [])
  {
    assert [Positive][0] == Positive;
  }

  /** Every object of the schema, at any depth, has distinct keys, as a JavaScript object literal does. */
  predicate WellFormed(s: Schema)
    decreases s
  {
    match s
    case OptionalS(inner) => WellFormed(inner)
    case DefaultS(inner, _) => WellFormed(inner)
    case ArrayS(element) => WellFormed(element)
    case ObjectS(fs) => DistinctKeys(fs) && forall i | 0 <= i < |fs| :: WellFormed(fs[i].schema)
    case _ => true
  }

  /** A successful parse yields undefined only from undefined. */
  lemma {:induction false} UndefinedOnlyFromUndefined(fmt: Formats, s: Schema, v: Value, path: seq<PathElem>)
    requires Parse(fmt, s, v, path).issues == [] && Parse(fmt, s, v, path).value == Undefined
    ensures v == Undefined
    decreases s
  {
    match s
    case OptionalS(inner) =>
      if v != Undefined {
        UndefinedOnlyFromUndefined(fmt, inner, v, path);
      }
    case DefaultS(inner, _) =>
      if v != Undefined {
        UndefinedOnlyFromUndefined(fmt, inner, v, path);
      }
    case _ =>
  }

  /** Two inputs that agree on the presence and the value of every key of `fs`. */
  predicate Agree(fs: seq<Field>, a: map<string, Value>, b: map<string, Value>) {
    forall i | 0 <= i < |fs| :: (fs[i].key in a <==> fs[i].key in b) && Lookup(a, fs[i].key) == Lookup(b, fs[i].key)
  }

  /** What an accepted parse returns passes the same schema again, unchanged. */
  lemma {:induction false} ParseIdempotent(fmt: Formats, s: Schema, v: Value, path: seq<PathElem>)
    requires WellFormed(s) && Parse(fmt, s, v, path).issues == []
    ensures var out := Parse(fmt, s, v, path).value;
      Parse(fmt, s, out, path) == Parsed(out, [])
    decreases s, 1, 0
  {
    var out := Parse(fmt, s, v, path).value;
    match s
    case OptionalS(inner) =>
      if v != Undefined && out != Undefined {
        ParseIdempotent(fmt, inner, v, path);
      }
    case DefaultS(inner, d) =>
      if out != Undefined {
        ParseIdempotent(fmt, inner, if v == Undefined then d else v, path);
      } else if v != Undefined {
        UndefinedOnlyFromUndefined(fmt, inner, v, path);
        assert false;
      }
    case ArrayS(_) =>
      ItemsIdempotent(fmt, s, v.items, 0, path);
    case ObjectS(fs) =>
      var m := ParseFields(fmt, s, fs, v.fields, path).0;
      FieldsIdempotent(fmt, s, fs, v.fields, m, path);
    case _ =>
  }

  lemma {:induction false} ItemsIdempotent(fmt: Formats, parent: Schema, items: seq<Value>, offset: nat, path: seq<PathElem>)
    requires parent.ArrayS? && WellFormed(parent)
    requires ParseItems(fmt, parent, items, offset, path).1 == []
    ensures var out := ParseItems(fmt, parent, items, offset, path).0;
      ParseItems(fmt, parent, out, offset, path) == (out, [])
    decreases parent, 0, |items|
  {
    if items != [] {
      var out := ParseItems(fmt, parent, items, offset, path).0;
      var rest := ParseItems(fmt, parent, items[1..], offset + 1, path).0;
      ParseIdempotent(fmt, parent.element, items[0], path + [Index(offset)]);
      ItemsIdempotent(fmt, parent, items[1..], offset + 1, path);
      assert out[1..] == rest;
    }
  }

  /**
   * The entries of an accepted object parse again to the same map, from any
   * input that agrees with that map on the shape's keys.
   */
  lemma {:induction false} FieldsIdempotent(fmt: Formats, parent: Schema, fs: seq<Field>, input: map<string, Value>,
                                            again: map<string, Value>, path: seq<PathElem>)
    requires parent.ObjectS? && forall f | f in fs :: f in parent.fields
    requires DistinctKeys(fs) && forall i | 0 <= i < |fs| :: WellFormed(fs[i].schema)
    requires ParseFields(fmt, parent, fs, input, path).1 == []
    requires Agree(fs, again, ParseFields(fmt, parent, fs, input, path).0)
    ensures ParseFields(fmt, parent, fs, again, path) == (ParseFields(fmt, parent, fs, input, path).0, [])
    decreases parent, 0, |fs|
  {
    if fs != [] {
      var f := fs[0];
      var tail := fs[1..];
      var m := ParseFields(fmt, parent, fs, input, path).0;
      var rest := ParseFields(fmt, parent, tail, input, path).0;
      TailDistinct(fs);
      FieldsOutputKeys(fmt, parent, tail, input, path);
      assert f.key !in rest;
      assert Agree(tail, again, rest) by {
        forall i | 0 <= i < |tail|
          ensures (tail[i].key in again <==> tail[i].key in rest) && Lookup(again, tail[i].key) == Lookup(rest, tail[i].key)
        {
          assert tail[i] == fs[i + 1];
        }
      }
      FieldsIdempotent(fmt, parent, tail, input, again, path);
      assert f in parent.fields;
      assert (f.key in again <==> f.key in m) && Lookup(again, f.key) == Lookup(m, f.key);
      if f.key in m {
        ParseIdempotent(fmt, f.schema, Lookup(input, f.key), path + [Key(f.key)]);
      }
    }
  }

  /**
   * `validateSchema`: the parsed data when the input passes, the issues
   * otherwise, and what it returns passes the schema again unchanged.
   */
  function ValidateSchema(fmt: Formats, s: Schema, v: Value): (r: Result<Value, seq<Issue>>)
    ensures r.Success? <==> Accepts(fmt, s, v)
    ensures r.Failure? ==> r.error != [] && r.error == Parse(fmt, s, v, []).issues
    ensures r.Success? && WellFormed(s) ==> Parse(fmt, s, r.value, []) == Parsed(r.value, [])
  {
    var p := Parse(fmt, s, v, []);
    if p.issues == [] then
      if WellFormed(s) then ParseIdempotent(fmt, s, v, []); Success(p.value)
      else Success(p.value)
    else Failure(p.issues)
  }

  /** The schemas above are well-formed, so what validateSchema returns for them passes them again. */
  lemma GameSchemasWellFormed()
    ensures WellFormed(JoinQueueSchema) && WellFormed(MoveSchema) && WellFormed(SocketMoveSchema)
  {
  }

  lemma AccountSchemasWellFormed()
    ensures WellFormed(DepositSchema) && WellFormed(WithdrawSchema) && WellFormed(RegisterSchema)
  {
  }

  lemma EnvSchemaWellFormed()
    ensures WellFormed(EnvSchema)
  {
    EnvKeysDistinct();
  }
}
