/** `OracleDataContext`: builds one connection from a connection string
    and creates commands of the three call shapes on it. Creating a command
    never opens the connection; that happens only inside an execute call. */
module DataContexts {
  import opened Wrappers
  import opened Values
  import opened Parameters
  import opened Driver
  import opened OracleCommands

  class OracleDataContext {
    const connection: Connection

    constructor (connectString: string)
      ensures fresh(connection) && connection.connectString == connectString && !connection.isOpen
    {
      connection := new Connection(connectString);
    }

    /** A text-mode command for `query`, with no parameters. */
    method CreateSqlCommand(query: string) returns (c: OracleCommand)
      ensures fresh(c) && c.connection == connection && unchanged(connection)
      ensures c.commandText == query && c.commandType == CommandType.Text && c.parameters == []
    {
      c := new OracleCommand(query, CommandType.Text, connection);
    }

    /** A stored-procedure command for the procedure `command`, with no
        parameters. */
    method CreateStoredProcedureCommand(command: string) returns (c: OracleCommand)
      ensures fresh(c) && c.connection == connection && unchanged(connection)
      ensures c.commandText == command && c.commandType == StoredProcedure && c.parameters == []
    {
      c := new OracleCommand(command, StoredProcedure, connection);
    }

    /** A stored-procedure command for the function `command`, with its one
        return parameter `resultVarName` of type `returnType` (decimal when
        none is given) already attached. A return type outside
        `GetDbType`'s domain makes it throw the mapping error instead. */
    method CreateFunctionCommand(command: string, returnType: Option<ClrType> := None, resultVarName: string := "result")
      returns (r: Result<OracleCommand, MappingError>)
      ensures unchanged(connection)
      ensures r.Success? <==> Mappable(returnType.GetOr(DecimalType))
      ensures r.Failure? ==> r.error.typeName == TypeName(returnType.GetOr(DecimalType))
      ensures r.Success? ==>
        var c := r.value;
        fresh(c) && c.connection == connection &&
        c.commandText == command && c.commandType == StoredProcedure &&
        c.parameters == [Param(resultVarName, ReturnValue, GetDbType(returnType.GetOr(DecimalType)).value, DefaultSize, Null)]
    {
      var c := new OracleCommand(command, StoredProcedure, connection);
      var added := c.AddParamReturn(resultVarName, returnType.GetOr(DecimalType));
      match added {
        case Success(_) =>
          r := Success(c);
        case Failure(e) =>
          r := Failure(e);
      }
    }
  }

  /** `CreateFunctionCommand` with its defaults: the command always gets a
      `result` parameter of Oracle type Decimal, returned, unsized and null. */
  method FunctionCommandDefaultsToDecimal(context: OracleDataContext, command: string)
    returns (r: Result<OracleCommand, MappingError>)
    ensures r.Success?
    ensures r.value.commandText == command && r.value.commandType == StoredProcedure
    ensures r.value.parameters == [Param("result", ReturnValue, Decimal, DefaultSize, Null)]
  {
    r := context.CreateFunctionCommand(command);
  }

  /** The call log text of a command whose one parameter is a string
      input: `name=value`, encoded as one piece. */
  lemma SingleInputCallText(name: string, value: string)
    ensures CallParamsText([InputParam(name, StringValue(Utf16(value)))]) == Utf16(name + "=" + value)
  {
    var p := InputParam(name, StringValue(Utf16(value)));
    CallParamsTextAfterAppend([], p);
    assert [] + [p] == [p];
    assert CallEntries([]) == [];
    Utf16Append(name + "=", value);
  }

  /** What a caller can conclude from the contracts alone: a stored-procedure
      lookup bound with one string input logs that input, returns the
      adapter's record for the first row, and leaves the shared connection
      closed. */
  method ClientScenario(connectString: string, login: string)
  {
    var context := new OracleDataContext(connectString);
    var cmd := context.CreateStoredProcedureCommand("Package.pUserGet");
    assert !cmd.connection.isOpen;
    var same := cmd.AddParamIn("p_user_login", StringValue(Utf16(login)));
    assert same == cmd && cmd.parameters == [InputParam("p_user_login", StringValue(Utf16(login)))];
    SingleInputCallText("p_user_login", login);
    assert "p_user_login" + "=" + login == "p_user_login=" + login;

    var record, logged := cmd.Get((row: string) => |row|, Reader([login + ";Alice;A;B;555"], None), 0);
    assert record == |login| + 14;
    assert logged == [Call(StoredProcedure, "Package.pUserGet", Utf16("p_user_login=" + login)), RowCount(1)];
    assert !context.connection.isOpen && cmd.connection == context.connection;
  }
}
