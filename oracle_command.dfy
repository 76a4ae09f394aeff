/** `OracleCommand`: builds the parameter list of one driver command, runs
    it in one of three modes, and logs the call and what came back. Every
    execution mode closes the connection whatever happened, and none lets
    an exception of the call out: a failure becomes `null`, `false` or the rows read
    so far, plus an error entry in the log. */
module OracleCommands {
  import opened Wrappers
  import opened Values
  import opened Parameters
  import opened Driver

  // ---------------------------------------------------------------------
  // Type mapping
  // ---------------------------------------------------------------------

  /** The exception `GetDbType` throws; it carries the name of the type it
      could not map. */
  datatype MappingError = MappingError(typeName: string)

  /** The host types `GetDbType` maps. */
  predicate Mappable(t: ClrType) {
    t == IntType || t == StringType || t == DecimalType || t == DoubleType
  }

  /** `GetDbType`: a chain of type tests ending in a throw. The repeated
      `int` test of the source is kept and proved unreachable. */
  function GetDbType(t: ClrType): (r: Result<DbType, MappingError>)
    ensures r.Success? <==> Mappable(t)
    ensures r.Failure? ==> r.error.typeName == TypeName(t)
  {
    if t == IntType then Success(Int32)
    else if t == StringType then Success(Varchar2)
    else if t == DecimalType then Success(Decimal)
    else if t == DoubleType then Success(Double)
    else if t == IntType then assert false; Success(Int32)
    else Failure(MappingError(TypeName(t)))
  }

  // ---------------------------------------------------------------------
  // Building parameters
  // ---------------------------------------------------------------------

  /** The values the six `AddParamIn` overloads accept: a string (possibly
      null, which C# resolves to the string overload), an `int`, a `char`,
      a `long`, a `double` or a `DateTime`. */
  predicate IsInArgument(v: Value) {
    v.Null? || v.StringValue? || v.IntValue? || v.CharValue? || v.LongValue? ||
    (v.Formatted? && (v.kind == DoubleType || v.kind == DateTimeType))
  }

  /** The host type of a non-null value. */
  function TypeOf(v: Value): ClrType
    requires !v.Null?
  {
    match v
    case StringValue(_) => StringType
    case IntValue(_) => IntType
    case CharValue(_) => CharType
    case LongValue(_) => LongType
    case Formatted(kind, _) => kind
  }

  /** The database type each `AddParamIn` overload binds its value as. */
  function InputDbType(v: Value): DbType
    requires IsInArgument(v)
  {
    match v
    case Null => Varchar2
    case StringValue(_) => Varchar2
    case IntValue(_) => Int32
    case CharValue(_) => Char
    case LongValue(_) => Long
    case Formatted(kind, _) => if kind == DoubleType then Double else Date
  }

  /** The parameter an `AddParamIn` overload appends. Only the `char`
      overload declares a size (1). */
  function InputParam(name: string, v: Value): Param
    requires IsInArgument(v)
  {
    Param(name, Input, InputDbType(v), if v.CharValue? then Sized(1) else DefaultSize, v)
  }

  /** The input binding and `GetDbType` agree wherever both are defined, and
      three of the overload types (`char`, `long`, `DateTime`) lie outside
      `GetDbType`'s domain, so an output or return parameter of those types
      cannot be declared. */
  lemma InputTypesAgreeWithMapping(v: Value)
    requires IsInArgument(v) && !v.Null?
    ensures Mappable(TypeOf(v)) ==> GetDbType(TypeOf(v)) == Success(InputDbType(v))
    ensures !Mappable(TypeOf(v)) <==> TypeOf(v) in {CharType, LongType, DateTimeType}
  {
  }

  /** The parameter `AddParamOut` (`Output`) or `AddParamReturn`
      (`ReturnValue`) appends, or the mapping error it throws first. */
  function DeclaredParam(name: string, t: ClrType, size: int, direction: Direction): (r: Result<Param, MappingError>)
    ensures r.Success? <==> Mappable(t)
    ensures r.Failure? ==> r.error.typeName == TypeName(t)
    ensures r.Success? ==> r.value.name == name && r.value.direction == direction &&
                           r.value.dbType == GetDbType(t).value && r.value.value == Null
    ensures r.Success? ==> (r.value.size == DefaultSize <==> size <= 0)
    ensures r.Success? && size > 0 ==> r.value.size == Sized(size)
  {
    match GetDbType(t)
    case Failure(e) => Failure(e)
    case Success(db) => Success(Param(name, direction, db, if size > 0 then Sized(size) else DefaultSize, Null))
  }

  /** The parameter `AddParamOutCursor` appends: a cursor bound as a return
      value, not as an output. */
  function CursorParam(name: string): Param {
    Param(name, ReturnValue, RefCursor, DefaultSize, Null)
  }

  /** No output or return parameter holds a value yet: true of every list
      built by the `AddParam` methods before the command runs. */
  predicate Unbound(ps: seq<Param>) {
    forall k :: 0 <= k < |ps| ==> ps[k].direction != Input ==> ps[k].value.Null?
  }

  /** Every parameter the `AddParam` methods append keeps a list unbound. */
  lemma AppendKeepsUnbound(ps: seq<Param>, p: Param)
    requires Unbound(ps)
    requires p.direction == Input || p.value.Null?
    ensures Unbound(ps + [p])
  {
    var qs := ps + [p];
    assert forall k :: 0 <= k < |ps| ==> qs[k] == ps[k];
  }

  // ---------------------------------------------------------------------
  // Log formatting: the LINQ Where / Select / string.Join pipelines of
  // OnExecuteCommand and OnReturnParameters.
  // ---------------------------------------------------------------------

  /** `Where`: the elements that satisfy `keep`, in their original order. */
  function Where<T>(keep: T -> bool, s: seq<T>): (r: seq<T>)
    ensures |r| <= |s|
  {
    if s == [] then [] else (if keep(s[0]) then [s[0]] else []) + Where(keep, s[1..])
  }

  /** `Where` keeps exactly the elements that satisfy `keep`. */
  lemma {:induction false} WhereMembers<T>(keep: T -> bool, s: seq<T>)
    ensures forall k :: 0 <= k < |Where(keep, s)| ==> Where(keep, s)[k] in s && keep(Where(keep, s)[k])
    ensures forall k :: 0 <= k < |s| && keep(s[k]) ==> s[k] in Where(keep, s)
  {
    if s != [] {
      WhereMembers(keep, s[1..]);
      var head := if keep(s[0]) then [s[0]] else [];
      var w := Where(keep, s);
      assert w == head + Where(keep, s[1..]);
      forall k | 0 <= k < |w| ensures w[k] in s && keep(w[k]) {
        if k >= |head| {
          assert w[k] == Where(keep, s[1..])[k - |head|];
        }
      }
      forall k | 0 <= k < |s| && keep(s[k]) ensures s[k] in w {
        if k > 0 {
          assert s[k] == s[1..][k - 1];
        }
      }
    }
  }

  /** Filtering a concatenation filters each part: appending parameters
      appends their entries, so the log keeps parameter order. */
  lemma {:induction false} WhereAppend<T>(keep: T -> bool, s: seq<T>, t: seq<T>)
    ensures Where(keep, s + t) == Where(keep, s) + Where(keep, t)
  {
    if s == [] {
      assert s + t == t;
    } else {
      var st := s + t;
      assert st[0] == s[0] && st[1..] == s[1..] + t;
      var head := if keep(s[0]) then [s[0]] else [];
      WhereAppend(keep, s[1..], t);
      calc {
        Where(keep, st);
        head + Where(keep, s[1..] + t);
        head + (Where(keep, s[1..]) + Where(keep, t));
        (head + Where(keep, s[1..])) + Where(keep, t);
      }
    }
  }

  /** `Select`: `f` applied to every element, in order. */
  function Select<T, U>(f: T -> U, s: seq<T>): (r: seq<U>)
    ensures |r| == |s|
    ensures forall k :: 0 <= k < |s| ==> r[k] == f(s[k])
  {
    if s == [] then [] else [f(s[0])] + Select(f, s[1..])
  }

  /** `string.Join(sep, xs)`. */
  function Join<C>(sep: seq<C>, xs: seq<seq<C>>): seq<C> {
    if xs == [] then [] else if |xs| == 1 then xs[0] else xs[0] + sep + Join(sep, xs[1..])
  }

  /** Joining one more string adds the separator and the string at the end. */
  lemma {:induction false} JoinAppend<C>(sep: seq<C>, xs: seq<seq<C>>, x: seq<C>)
    ensures Join(sep, xs + [x]) == if xs == [] then x else Join(sep, xs) + sep + x
  {
    if |xs| == 1 {
      assert (xs + [x])[1..] == [x];
    } else if |xs| > 1 {
      JoinAppend(sep, xs[1..], x);
      assert (xs + [x])[1..] == xs[1..] + [x];
    }
  }

  /** The length of a joined string: the lengths of the elements, plus one
      separator length per pair of neighbours. */
  lemma {:induction false} JoinLength<C>(sep: seq<C>, xs: seq<seq<C>>)
    ensures |Join(sep, xs)| == SumOfLengths(xs) + (if xs == [] then 0 else (|xs| - 1) * |sep|)
  {
    if |xs| > 1 {
      JoinLength(sep, xs[1..]);
    }
  }

  function SumOfLengths<C>(xs: seq<seq<C>>): nat {
    if xs == [] then 0 else |xs[0]| + SumOfLengths(xs[1..])
  }

  /** Joining non-empty strings gives the empty string only for no strings. */
  lemma JoinEmpty<C>(sep: seq<C>, xs: seq<seq<C>>)
    requires forall k :: 0 <= k < |xs| ==> xs[k] != []
    ensures Join(sep, xs) == [] <==> xs == []
  {
    if |xs| > 1 {
      assert Join(sep, xs) == xs[0] + sep + Join(sep, xs[1..]);
    }
  }

  /** The longest a returned value is logged as, in UTF-16 code units. */
  const MaxLoggedLength: nat := 50

  /** `str.Substring(0, max < str.Length ? max : str.Length)`, counted in
      UTF-16 code units as .NET counts them: the result may end in the
      first half of a surrogate pair. */
  function Truncate(s: Text, max: nat): (r: Text)
    ensures |r| == if |s| < max then |s| else max
    ensures r <= s
  {
    s[..if max < |s| then max else |s|]
  }

  /** A string that fits is kept whole, and truncating twice is truncating once. */
  lemma TruncateKeepsShort(s: Text, max: nat)
    ensures |s| <= max ==> Truncate(s, max) == s
    ensures Truncate(Truncate(s, max), max) == Truncate(s, max)
  {
  }

  /** For text inside the Basic Multilingual Plane, cutting to `max` code
      units keeps the first `max` characters. */
  lemma TruncateBmp(s: string, max: nat)
    requires InBmp(s)
    ensures Truncate(Utf16(s), max) == Utf16(s[..if max < |s| then max else |s|])
  {
    Utf16Bmp(s, if max < |s| then max else |s|);
  }

  /** Text made only of characters outside the Basic Multilingual Plane
      takes two code units per character. */
  lemma {:induction false} Utf16Astral(s: string, n: nat)
    requires forall i :: 0 <= i < |s| ==> s[i] as int >= 0x1_0000
    requires n <= |s|
    ensures |Utf16(s)| == 2 * |s|
    ensures Utf16(s)[..2 * n] == Utf16(s[..n])
  {
    if s != [] {
      Utf16Astral(s[1..], if n == 0 then 0 else n - 1);
      if n > 0 {
        assert s[..n] == [s[0]] + s[1..][..n - 1];
        Utf16Append([s[0]], s[1..][..n - 1]);
        assert Utf16([s[0]]) == EncodeChar(s[0]);
      } else {
        assert s[..n] == [];
      }
    }
  }

  /** A returned value of fifty U+1F600 characters is one hundred code
      units long, and is logged as its first twenty-five characters. */
  lemma TruncateCountsCodeUnits()
    ensures var s := seq(50, _ => '\U{1F600}');
            Truncate(Utf16(s), MaxLoggedLength) == Utf16(s[..25])
  {
    var s := seq(50, _ => '\U{1F600}');
    Utf16Astral(s, 25);
  }

  predicate HasValue(p: Param) {
    !p.value.Null?
  }

  /** What `OnReturnParameters` logs: a parameter with a value and direction
      `Output` or `ReturnValue`. */
  predicate IsReturned(p: Param) {
    !p.value.Null? && (p.direction == Output || p.direction == ReturnValue)
  }

  /** `name=value`, as `OnExecuteCommand` renders a parameter. */
  function Render(p: Param): Text {
    Utf16(p.name + "=") + ToText(p.value)
  }

  /** `name=value` with the value cut to `MaxLoggedLength` code units, as
      `OnReturnParameters` renders a parameter. */
  function RenderTruncated(p: Param): Text {
    Utf16(p.name + "=") + Truncate(ToText(p.value), MaxLoggedLength)
  }

  /** The entries of the call log: every parameter with a value, whatever
      its direction. */
  function CallEntries(ps: seq<Param>): seq<Text> {
    Select(Render, Where(HasValue, ps))
  }

  /** The entries of the returned-values log. */
  function ReturnEntries(ps: seq<Param>): seq<Text> {
    Select(RenderTruncated, Where(IsReturned, ps))
  }

  /** The parameter list `OnExecuteCommand` writes into its log line: empty
      exactly when no parameter holds a value. */
  function CallParamsText(ps: seq<Param>): (r: Text)
    ensures r == [] <==> forall k :: 0 <= k < |ps| ==> !HasValue(ps[k])
  {
    WhereMembers(HasValue, ps);
    JoinEmpty(Utf16(", "), CallEntries(ps));
    Join(Utf16(", "), CallEntries(ps))
  }

  /** The parameter list `OnReturnParameters` writes into its log line:
      empty exactly when no output or return parameter holds a value. */
  function ReturnParamsText(ps: seq<Param>): (r: Text)
    ensures r == [] <==> forall k :: 0 <= k < |ps| ==> !IsReturned(ps[k])
  {
    WhereMembers(IsReturned, ps);
    JoinEmpty(Utf16(", "), ReturnEntries(ps));
    Join(Utf16(", "), ReturnEntries(ps))
  }

  /** Adding a parameter adds its `name=value` entry at the end of the call
      log when it holds a value, and nothing when it holds null. */
  lemma CallEntriesAfterAppend(ps: seq<Param>, p: Param)
    ensures CallEntries(ps + [p]) == CallEntries(ps) + (if HasValue(p) then [Render(p)] else [])
  {
    WhereAppend(HasValue, ps, [p]);
    assert Where(HasValue, [p]) == if HasValue(p) then [p] else [];
    var a, b := Where(HasValue, ps), Where(HasValue, [p]);
    assert Select(Render, a + b) == Select(Render, a) + Select(Render, b);
  }

  /** Adding a parameter adds its truncated `name=value` entry at the end
      of the returned-values log when it is an output or return parameter
      holding a value, and nothing otherwise. */
  lemma ReturnEntriesAfterAppend(ps: seq<Param>, p: Param)
    ensures ReturnEntries(ps + [p]) == ReturnEntries(ps) + (if IsReturned(p) then [RenderTruncated(p)] else [])
  {
    WhereAppend(IsReturned, ps, [p]);
    assert Where(IsReturned, [p]) == if IsReturned(p) then [p] else [];
    var a, b := Where(IsReturned, ps), Where(IsReturned, [p]);
    assert Select(RenderTruncated, a + b) == Select(RenderTruncated, a) + Select(RenderTruncated, b);
  }

  /** The call log line after adding a parameter, as text. */
  lemma CallParamsTextAfterAppend(ps: seq<Param>, p: Param)
    ensures CallParamsText(ps + [p]) ==
      if !HasValue(p) then CallParamsText(ps)
      else if CallEntries(ps) == [] then Render(p)
      else CallParamsText(ps) + Utf16(", ") + Render(p)
  {
    CallEntriesAfterAppend(ps, p);
    if !HasValue(p) {
      assert CallEntries(ps + [p]) == CallEntries(ps);
    } else {
      JoinAppend(Utf16(", "), CallEntries(ps), Render(p));
    }
  }

  /** Filtering, then rendering, lists the rendering of every element the
      filter keeps, and nothing else. */
  lemma SelectWhereMembers<T, U>(keep: T -> bool, render: T -> U, s: seq<T>)
    ensures forall k :: 0 <= k < |s| && keep(s[k]) ==> render(s[k]) in Select(render, Where(keep, s))
    ensures forall e :: e in Select(render, Where(keep, s)) ==>
      exists k :: 0 <= k < |s| && keep(s[k]) && e == render(s[k])
  {
    var w := Where(keep, s);
    var r := Select(render, w);
    WhereMembers(keep, s);
    forall k | 0 <= k < |s| && keep(s[k]) ensures render(s[k]) in r {
      var j :| 0 <= j < |w| && w[j] == s[k];
      assert r[j] == render(s[k]);
    }
    forall e | e in r
      ensures exists k :: 0 <= k < |s| && keep(s[k]) && e == render(s[k])
    {
      var j :| 0 <= j < |w| && r[j] == e;
      var k :| 0 <= k < |s| && s[k] == w[j];
      assert keep(s[k]) && e == render(s[k]);
    }
  }

  /** The call log lists every parameter that holds a value, whatever its
      direction, and nothing else. */
  lemma CallLogListsValuedParameters(ps: seq<Param>)
    ensures forall k :: 0 <= k < |ps| && HasValue(ps[k]) ==> Render(ps[k]) in CallEntries(ps)
    ensures forall e :: e in CallEntries(ps) ==>
      exists k :: 0 <= k < |ps| && HasValue(ps[k]) && e == Render(ps[k])
  {
    SelectWhereMembers(HasValue, Render, ps);
  }

  /** The returned-values log lists exactly the output and return
      parameters that hold a value (never an input), each with its value
      cut to `MaxLoggedLength` code units. */
  lemma ReturnLogListsReturnedParameters(ps: seq<Param>)
    ensures forall k :: 0 <= k < |ps| && IsReturned(ps[k]) ==> RenderTruncated(ps[k]) in ReturnEntries(ps)
    ensures forall e :: e in ReturnEntries(ps) ==>
      exists k :: 0 <= k < |ps| && IsReturned(ps[k]) && e == RenderTruncated(ps[k])
  {
    SelectWhereMembers(IsReturned, RenderTruncated, ps);
  }

  /** After a completed call on a list built by the `AddParam` methods, a
      parameter is listed in the returned-values log exactly when it is an
      output or return parameter the driver handed a non-null value for; a
      driver that hands back no values gives an empty list. */
  lemma ReturnedAfterCall(ps: seq<Param>, outputs: map<string, Value>)
    requires Unbound(ps)
    ensures |Bind(ps, outputs)| == |ps|
    ensures forall k :: 0 <= k < |ps| ==>
      (IsReturned(Bind(ps, outputs)[k]) <==>
       ps[k].direction != Input && ps[k].name in outputs && !outputs[ps[k].name].Null?)
    ensures (forall k :: 0 <= k < |ps| && ps[k].direction != Input ==>
               ps[k].name !in outputs || outputs[ps[k].name].Null?) ==>
            ReturnParamsText(Bind(ps, outputs)) == []
  {
    BindPointwise(ps, outputs);
  }

  // ---------------------------------------------------------------------
  // Logging and reading rows
  // ---------------------------------------------------------------------

  /** What the execute methods write to the application log, in the order
      they write it. The message templates are not modelled. */
  datatype LogEntry =
    | Call(commandType: CommandType, commandText: string, parameters: Text)    // OnExecuteCommand
    | Received(parameters: Text)                                               // OnReturnParameters
    | RowCount(count: nat)                                                     // OnResultCountLines
    | Error(message: string)                                                   // OnError

  /** The records `GetList` returns for a reader outcome: one adapter result
      per row read, in read order, and none when there was no reader. */
  function ReadList<R, M>(adapter: R -> M, outcome: ReadOutcome<R>): (list: seq<M>)
  {
    match outcome
    case NoReader => []
    case Reader(rows, _) => Select(adapter, rows)
  }

  /** What `GetList` logs after the call entry: the row count when the read
      ended normally, the error otherwise. */
  function ReadLog<R>(outcome: ReadOutcome<R>): seq<LogEntry> {
    match outcome
    case NoReader => [RowCount(0)]
    case Reader(rows, None) => [RowCount(|rows|)]
    case Reader(_, Some(message)) => [Error(message)]
  }

  /** `Get`'s result is the adapter applied to the first row read, and the
      default exactly when no row was read. */
  lemma ReadListFirst<R, M>(adapter: R -> M, outcome: ReadOutcome<R>)
    ensures |ReadList(adapter, outcome)| == (if outcome.Reader? then |outcome.rows| else 0)
    ensures outcome.Reader? && outcome.rows != [] ==> ReadList(adapter, outcome)[0] == adapter(outcome.rows[0])
  {
  }

  // ---------------------------------------------------------------------
  // The command
  // ---------------------------------------------------------------------

  /** An `OracleCommand` together with the driver command it wraps: the
      command text and type and the connection are fixed when it is
      created; the parameter list grows by appending and takes the values
      the driver hands back when a call completes. */
  class OracleCommand {
    const connection: Connection
    const commandType: CommandType
    const commandText: string
    var parameters: seq<Param>

    constructor (commandText: string, commandType: CommandType, connection: Connection)
      ensures this.commandText == commandText && this.commandType == commandType
      ensures this.connection == connection && parameters == []
      ensures Unbound(parameters)
    {
      this.commandText := commandText;
      this.commandType := commandType;
      this.connection := connection;
      parameters := [];
    }

    /** The six `AddParamIn` overloads: append one input parameter holding
        `value`, and return the command itself for chaining. */
    method AddParamIn(name: string, value: Value) returns (self: OracleCommand)
      requires IsInArgument(value)
      modifies this`parameters
      ensures self == this
      ensures parameters == old(parameters) + [InputParam(name, value)]
      ensures Unbound(old(parameters)) ==> Unbound(parameters)
    {
      if Unbound(parameters) {
        AppendKeepsUnbound(parameters, InputParam(name, value));
      }
      parameters := parameters + [InputParam(name, value)];
      self := this;
    }

    /** Append a cursor parameter bound as a return value. */
    method AddParamOutCursor(name: string) returns (self: OracleCommand)
      modifies this`parameters
      ensures self == this
      ensures parameters == old(parameters) + [CursorParam(name)]
      ensures Unbound(old(parameters)) ==> Unbound(parameters)
    {
      if Unbound(parameters) {
        AppendKeepsUnbound(parameters, CursorParam(name));
      }
      parameters := parameters + [CursorParam(name)];
      self := this;
    }

    /** Append an output parameter of type `t`, sized explicitly only when
      `size > 0`; a type outside `GetDbType`'s domain throws before
      anything is appended. */
    method AddParamOut(name: string, t: ClrType, size: int := 0) returns (r: Result<OracleCommand, MappingError>)
      modifies this`parameters
      ensures r.Success? <==> Mappable(t)
      ensures r.Success? ==> r.value == this && parameters == old(parameters) + [DeclaredParam(name, t, size, Output).value]
      ensures r.Failure? ==> r.error.typeName == TypeName(t) && parameters == old(parameters)
      ensures Unbound(old(parameters)) ==> Unbound(parameters)
    {
      var p := DeclaredParam(name, t, size, Output);
      match p {
        case Failure(e) =>
          r := Failure(e);
        case Success(q) =>
          if Unbound(parameters) {
            AppendKeepsUnbound(parameters, q);
          }
          parameters := parameters + [q];
          r := Success(this);
      }
    }

    /** As `AddParamOut`, with direction `ReturnValue`. */
    method AddParamReturn(name: string, t: ClrType, size: int := 0) returns (r: Result<OracleCommand, MappingError>)
      modifies this`parameters
      ensures r.Success? <==> Mappable(t)
      ensures r.Success? ==> r.value == this && parameters == old(parameters) + [DeclaredParam(name, t, size, ReturnValue).value]
      ensures r.Failure? ==> r.error.typeName == TypeName(t) && parameters == old(parameters)
      ensures Unbound(old(parameters)) ==> Unbound(parameters)
    {
      var p := DeclaredParam(name, t, size, ReturnValue);
      match p {
        case Failure(e) =>
          r := Failure(e);
        case Success(q) =>
          if Unbound(parameters) {
            AppendKeepsUnbound(parameters, q);
          }
          parameters := parameters + [q];
          r := Success(this);
      }
    }

    /** The value of the first parameter called `name`, or null when there
        is none. */
    function GetParam(name: string): (r: Value)
      reads this
      ensures (forall k :: 0 <= k < |parameters| ==> parameters[k].name != name) ==> r == Null
      ensures forall k ::
        (0 <= k < |parameters| && parameters[k].name == name &&
         forall j :: 0 <= j < k ==> parameters[j].name != name) ==> r == parameters[k].value
    {
      var k := IndexOf(parameters, name);
      if k < 0 then Null else parameters[k].value
    }

    /** The entry `OnExecuteCommand` logs: the command's type and text, and
        a parameter list that is empty exactly when no parameter holds a
        value. */
    function CallEntry(): (r: LogEntry)
      reads this
      ensures r.Call? && r.commandType == commandType && r.commandText == commandText
      ensures r.parameters == [] <==> forall k :: 0 <= k < |parameters| ==> !HasValue(parameters[k])
    {
      Call(commandType, commandText, CallParamsText(parameters))
    }

    /** Scalar mode: log the call, open, run `ExecuteScalar`, close. Returns
        the scalar, or null when an exception was raised (which is logged). */
    method Execute(outcome: Outcome<Value>) returns (result: Value, logged: seq<LogEntry>)
      modifies this`parameters, connection
      ensures !connection.isOpen
      ensures result == if outcome.Completed? then outcome.returned else Null
      ensures parameters == if outcome.Completed? then Bind(old(parameters), outcome.outputs) else old(parameters)
      ensures logged == [old(CallEntry())] +
                        (if outcome.Threw? then [Error(outcome.message)] else [])
    {
      logged := [CallEntry()];
      connection.Open();
      match outcome {
        case Completed(returned, outputs) =>
          parameters := Bind(parameters, outputs);
          result := returned;
        case Threw(message) =>
          logged := logged + [Error(message)];
          result := Null;
      }
      connection.Close();
    }

    /** Non-query mode: log the call, open, run `ExecuteNonQuery`, log the
        returned values, close. True exactly when no exception was raised. */
    method SimpleExecute(outcome: Outcome<int>) returns (ok: bool, logged: seq<LogEntry>)
      modifies this`parameters, connection
      ensures !connection.isOpen
      ensures ok <==> outcome.Completed?
      ensures parameters == if ok then Bind(old(parameters), outcome.outputs) else old(parameters)
      ensures logged == [old(CallEntry())] +
                        (if ok then [Received(ReturnParamsText(parameters))] else [Error(outcome.message)])
    {
      logged := [CallEntry()];
      connection.Open();
      match outcome {
        case Completed(_, outputs) =>
          parameters := Bind(parameters, outputs);
          logged := logged + [Received(ReturnParamsText(parameters))];
          ok := true;
        case Threw(message) =>
          logged := logged + [Error(message)];
          ok := false;
      }
      connection.Close();
    }

    /** Row-set mode: log the call, open, run `ExecuteReader` and apply the
        adapter to each row as it is read, close. Never null: the records
        read before an exception are returned. */
    method GetList<R, M>(adapter: R -> M, outcome: ReadOutcome<R>) returns (list: seq<M>, logged: seq<LogEntry>)
      modifies connection
      ensures !connection.isOpen
      ensures list == ReadList(adapter, outcome)
      ensures logged == [CallEntry()] + ReadLog(outcome)
    {
      list := [];
      logged := [CallEntry()];
      connection.Open();
      if outcome.Reader? {
        var rows := outcome.rows;
        var i := 0;
        while i < |rows|
          invariant 0 <= i <= |rows|
          invariant |list| == i
          invariant forall k :: 0 <= k < i ==> list[k] == adapter(rows[k])
        {
          list := list + [adapter(rows[i])];
          i := i + 1;
        }
      }
      match outcome {
        case NoReader =>
          logged := logged + [RowCount(|list|)];
        case Reader(_, None) =>
          logged := logged + [RowCount(|list|)];
        case Reader(_, Some(message)) =>
          logged := logged + [Error(message)];
      }
      connection.Close();
    }

    /** The first record `GetList` reads, or `default` (C#'s
        `default(TModel)`) when it reads none. */
    method Get<R, M>(adapter: R -> M, outcome: ReadOutcome<R>, default: M) returns (record: M, logged: seq<LogEntry>)
      modifies connection
      ensures !connection.isOpen
      ensures record == if ReadList(adapter, outcome) == [] then default else ReadList(adapter, outcome)[0]
      ensures logged == [CallEntry()] + ReadLog(outcome)
    {
      var list;
      list, logged := GetList(adapter, outcome);
      record := if list == [] then default else list[0];
    }
  }

  /** An input parameter added before the command runs is read back
      unchanged by `GetParam` after a completed call, provided no earlier
      parameter has its name. */
  lemma InputReadBackAfterCall(ps: seq<Param>, name: string, v: Value, outputs: map<string, Value>)
    requires IsInArgument(v)
    requires forall k :: 0 <= k < |ps| ==> ps[k].name != name
    ensures var qs := Bind(ps + [InputParam(name, v)], outputs);
            IndexOf(qs, name) == |ps| && qs[|ps|].value == v
  {
    var ps' := ps + [InputParam(name, v)];
    IndexOfAppend(ps, InputParam(name, v), name);
    BindKeepsIndex(ps', outputs, name);
    BindChangesOnlyOutputValues(ps', outputs);
  }
}
