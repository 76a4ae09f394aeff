/** The Oracle driver, seen from the command layer: a connection that is
    open or closed, and the outcome of one driver call, supplied from
    outside because the driver itself is not modelled. */
module Driver {
  import opened Wrappers
  import opened Values
  import opened Parameters

  /** An `OracleConnection`, reduced to its connection string and whether it
      is open. */
  class Connection {
    const connectString: string
    var isOpen: bool

    constructor (connectString: string)
      ensures this.connectString == connectString && !isOpen
    {
      this.connectString := connectString;
      isOpen := false;
    }

    method Open()
      modifies this
      ensures isOpen
    {
      isOpen := true;
    }

    method Close()
      modifies this
      ensures !isOpen
    {
      isOpen := false;
    }
  }

  /** `CommandType`: how the driver reads the command text. */
  datatype CommandType = Text | StoredProcedure

  /** The outcome of `ExecuteScalar` or `ExecuteNonQuery`: either the call
      completed, returning `returned` and handing back values for output and
      return parameters by name, or an exception with `message` was raised
      (by `Open` or by the call itself). */
  datatype Outcome<T> =
    | Completed(returned: T, outputs: map<string, Value>)
    | Threw(message: string)

  /** The outcome of `ExecuteReader`: `ExecuteReader` returned null, or a
      reader that yielded `rows` one `Read()` at a time and then either
      reported the end (`thrown == None`) or raised an exception. An
      exception raised by `Open`, by `ExecuteReader` or by the row adapter
      before any row was read is `Reader([], Some(message))`. */
  datatype ReadOutcome<R> =
    | NoReader
    | Reader(rows: seq<R>, thrown: Option<string>)

  /** What a completed call does to one parameter: an output or return
      parameter takes the value the driver handed back for its name; an
      input parameter, or one the driver said nothing about, keeps its value. */
  function BindOne(p: Param, outputs: map<string, Value>): Param {
    if p.direction != Input && p.name in outputs then p.(value := outputs[p.name]) else p
  }

  /** The parameter list after a completed call. */
  function Bind(ps: seq<Param>, outputs: map<string, Value>): seq<Param> {
    if ps == [] then [] else [BindOne(ps[0], outputs)] + Bind(ps[1..], outputs)
  }

  /** Binding goes parameter by parameter: the list keeps its length and
      order, and each parameter is bound on its own. */
  lemma {:induction false} BindPointwise(ps: seq<Param>, outputs: map<string, Value>)
    ensures |Bind(ps, outputs)| == |ps|
    ensures forall k :: 0 <= k < |ps| ==> Bind(ps, outputs)[k] == BindOne(ps[k], outputs)
  {
    if ps != [] {
      BindPointwise(ps[1..], outputs);
    }
  }

  /** A completed call changes only values: every parameter keeps its name,
      direction, type and size; input parameters keep their value; and an
      output or return parameter the driver handed a value for holds it. */
  lemma BindChangesOnlyOutputValues(ps: seq<Param>, outputs: map<string, Value>)
    ensures |Bind(ps, outputs)| == |ps|
    ensures forall k :: 0 <= k < |ps| ==>
      var q := Bind(ps, outputs)[k];
      q.name == ps[k].name && q.direction == ps[k].direction &&
      q.dbType == ps[k].dbType && q.size == ps[k].size
    ensures forall k :: 0 <= k < |ps| && ps[k].direction == Input ==> Bind(ps, outputs)[k] == ps[k]
    ensures forall k :: 0 <= k < |ps| && ps[k].direction != Input && ps[k].name in outputs ==>
      Bind(ps, outputs)[k].value == outputs[ps[k].name]
  {
    BindPointwise(ps, outputs);
  }

  /** After a completed call every name finds the parameter at the same
      position as before. */
  lemma BindKeepsIndex(ps: seq<Param>, outputs: map<string, Value>, name: string)
    ensures IndexOf(Bind(ps, outputs), name) == IndexOf(ps, name)
  {
    BindPointwise(ps, outputs);
    SameNamesSameIndex(ps, Bind(ps, outputs), name);
  }
}
