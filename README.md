# SimpleORM command layer in Dafny

A model of the data-access core of SimpleORM: the `OracleCommand` command
builder (`Db/OracleCommand.cs`) and the `OracleDataContext` that creates
commands (`Db/DataContext.cs`).

- A command is a class (`OracleCommands.OracleCommand`) with its command
  text, its command type (text or stored procedure), the connection it is
  bound to, and a parameter list (`seq<Param>`) that the `AddParam*`
  methods grow by appending. Each parameter is a record of name,
  direction, Oracle type, declared size and value.
- `GetDbType` maps `int`, `string`, `decimal` and `double` and throws a
  mapping error naming the type for anything else. Its repeated `int` test
  (line 158) is kept and proved unreachable.
- The three execution modes (`Execute`, `SimpleExecute`, `GetList`, and
  `Get` on top of `GetList`) take the driver's outcome as an input: a
  completed call with a result and values for output parameters, an
  exception, or a reader that yields rows and then ends or throws. Each
  returns what it logged. Whatever the outcome, the connection ends
  closed and no exception of the call escapes: a failure becomes `null`, `false` or
  the records read so far, plus an error entry.
- The log lines of `OnExecuteCommand` and `OnReturnParameters` are
  modelled as the LINQ pipelines they are: filter the parameters, render
  each as `name=value` (the returned values cut to 50 UTF-16 code units,
  as .NET's `Length` and `Substring` count), join with `", "`. Logged
  text is a sequence of UTF-16 code units (`Values.Text`); names and
  messages are Dafny strings, encoded with `Values.Utf16` where they are
  rendered.
- `OracleDataContext` owns one connection, built in its constructor; every
  command it creates is bound to it, and creating a command never opens
  it.

The driver, the connection internals and the logging sink are not
modelled: see "Left out".

Notes on the code:
- `GetDbType` maps only `int`, `string`, `decimal` and `double`; `char`,
  `long` and `DateTime` are rejected (`InputTypesAgreeWithMapping`).
- `AddParamOutCursor` binds its cursor with direction `ReturnValue`, not as
  an output.
- The call log lists every parameter that holds a value, outputs included,
  not only the inputs.
- Nothing rejects a duplicate parameter name.

Files: `wrappers.dfy` (Option, Result), `values.dfy` (host types, values,
integer rendering), `parameters.dfy` (parameters, lookup by name),
`driver.dfy` (connection, driver outcomes, output binding),
`oracle_command.dfy` (type mapping, parameter building, log formatting,
the command class), `data_context.dfy` (the data context and a client
scenario).

## Model

| member | source | states |
|---|---|---|
| `OracleCommands.GetDbType` | Db/OracleCommand.cs:152-160 | succeeds exactly on int, string, decimal and double; on any other type fails with an error carrying that type's name; the second int test is unreachable |
| `OracleCommands.InputTypesAgreeWithMapping` | Db/OracleCommand.cs:37-68 | the input overloads bind int, string and double exactly as `GetDbType` maps them, and char, long and DateTime are precisely the overload types `GetDbType` rejects |
| `OracleCommands.DeclaredParam` | Db/OracleCommand.cs:75-87 | an output/return parameter exists exactly when the type is mappable; it has the given name and direction, the mapped type, a null value, and an explicit size exactly when size > 0; otherwise the error names the type |
| `OracleCommands.OracleCommand.constructor` | Db/OracleCommand.cs:33-35 | a new command has the given text, type and connection and no parameters, so no output or return parameter holds a value |
| `OracleCommands.OracleCommand.AddParamIn` | Db/OracleCommand.cs:37-68 | appends exactly one input parameter with the given name and value (Varchar2, Int32, Char of size 1, Long, Double or Date by the value's type), keeps the earlier ones, returns the same command; an unbound list stays unbound |
| `OracleCommands.OracleCommand.AddParamOutCursor` | Db/OracleCommand.cs:70-73 | appends one RefCursor parameter with direction ReturnValue and a null value, returns the same command; an unbound list stays unbound |
| `OracleCommands.OracleCommand.AddParamOut` | Db/OracleCommand.cs:75-80 | on a mappable type appends one Output parameter (null value, explicit size only when size > 0) and returns the same command; otherwise the list is unchanged and the error names the type; an unbound list stays unbound |
| `OracleCommands.OracleCommand.AddParamReturn` | Db/OracleCommand.cs:82-87 | as AddParamOut, with direction ReturnValue |
| `OracleCommands.OracleCommand.GetParam` | Db/OracleCommand.cs:89-91 | null when no parameter has the name, otherwise the value of the first parameter with that name; reads the list without changing it |
| `OracleCommands.OracleCommand.CallEntry` | Db/OracleCommand.cs:162-171 | the call entry carries the command's type and text, and its parameter list is empty exactly when no parameter holds a value |
| `OracleCommands.OracleCommand.Execute` | Db/OracleCommand.cs:93-106 | logs the call entry of the parameters as they were before the call; returns the scalar on success and null on an exception (then logging the error); output values are bound only on success; the connection ends closed either way |
| `OracleCommands.OracleCommand.SimpleExecute` | Db/OracleCommand.cs:108-123 | returns true exactly when no exception was raised; on success binds output values and logs the returned values, on failure logs the error instead; the connection ends closed either way |
| `OracleCommands.OracleCommand.GetList` | Db/OracleCommand.cs:132-150 | never null: one adapter result per row in read order, empty when there is no reader, the records before the exception when one is raised; logs the row count only when the read ends normally; the connection ends closed |
| `OracleCommands.OracleCommand.Get` | Db/OracleCommand.cs:125-130 | the first record GetList yields, or the default when it yields none; logs as GetList does and closes the connection |
| `OracleCommands.ReadListFirst` | Db/OracleCommand.cs:125-150 | GetList yields as many records as rows read, and Get's record is the adapter applied to the first row |
| `OracleCommands.InputReadBackAfterCall` | Db/OracleCommand.cs:37-97 | an input parameter with a fresh name is found by GetParam at the position it was appended to, with its value unchanged, after a completed call |
| `OracleCommands.AppendKeepsUnbound` | Db/OracleCommand.cs:37-87 | appending an input, or an output or return parameter holding null, keeps every output and return parameter null |
| `OracleCommands.ReturnedAfterCall` | Db/OracleCommand.cs:108-187 | after a completed call on an unbound list, a parameter is logged as returned exactly when it is an output or return parameter the driver handed a non-null value for; no such value gives an empty returned-values list |
| `OracleCommands.Where` | Db/OracleCommand.cs:166 | filtering never lengthens the parameter list |
| `OracleCommands.WhereMembers` | Db/OracleCommand.cs:166 | the filter keeps exactly the parameters that satisfy the predicate |
| `OracleCommands.WhereAppend` | Db/OracleCommand.cs:163-167 | filtering a concatenation filters each part, so log entries follow parameter order |
| `OracleCommands.Select` | Db/OracleCommand.cs:167 | one rendered entry per parameter, in order |
| `OracleCommands.JoinAppend` | Db/OracleCommand.cs:163 | joining one more entry appends the separator and the entry |
| `OracleCommands.JoinLength` | Db/OracleCommand.cs:163 | the joined text's length is the entries' total length plus one separator length per pair of neighbours |
| `OracleCommands.JoinEmpty` | Db/OracleCommand.cs:163 | joining non-empty entries gives empty text exactly when there are no entries |
| `OracleCommands.Truncate` | Db/OracleCommand.cs:175-186 | a logged returned value is the prefix of its UTF-16 text of min(50, length) code units |
| `OracleCommands.TruncateKeepsShort` | Db/OracleCommand.cs:186 | a value of at most 50 code units is logged whole, and truncation is idempotent |
| `OracleCommands.TruncateBmp` | Db/OracleCommand.cs:186 | for text inside the Basic Multilingual Plane, truncation keeps the first 50 characters |
| `OracleCommands.Utf16Astral` | Db/OracleCommand.cs:186 | text made only of characters outside the Basic Multilingual Plane is two code units per character, and a prefix of 2n units is the encoding of the first n characters |
| `OracleCommands.TruncateCountsCodeUnits` | Db/OracleCommand.cs:186 | fifty U+1F600 characters are logged as their first twenty-five |
| `OracleCommands.CallParamsText` | Db/OracleCommand.cs:162-171 | the call log's parameter list is empty exactly when no parameter holds a value |
| `OracleCommands.ReturnParamsText` | Db/OracleCommand.cs:174-190 | the returned-values list is empty exactly when no output or return parameter holds a value |
| `OracleCommands.CallEntriesAfterAppend` | Db/OracleCommand.cs:162-167 | adding a parameter adds its `name=value` entry at the end of the call log when it holds a value, and nothing when it is null |
| `OracleCommands.ReturnEntriesAfterAppend` | Db/OracleCommand.cs:174-187 | adding a parameter adds its truncated `name=value` entry at the end of the returned-values log when it is an output or return parameter holding a value, and nothing otherwise |
| `OracleCommands.CallParamsTextAfterAppend` | Db/OracleCommand.cs:162-171 | the call log text after adding a parameter: unchanged for a null value, otherwise the old text, `", "`, and `name=value` |
| `OracleCommands.CallLogListsValuedParameters` | Db/OracleCommand.cs:162-167 | the call log lists every parameter that holds a value, whatever its direction, and nothing else |
| `OracleCommands.SelectWhereMembers` | Db/OracleCommand.cs:163-167 | filtering and then rendering lists the rendering of every kept parameter and nothing else |
| `OracleCommands.ReturnLogListsReturnedParameters` | Db/OracleCommand.cs:174-187 | the returned-values log lists exactly the Output and ReturnValue parameters that hold a value, never an input, each value truncated |
| `Parameters.IndexOf` | Db/OracleCommand.cs:89-91 | the name indexer finds the first parameter with the name, or nothing when no parameter has it |
| `Parameters.IndexOfAppend` | Db/OracleCommand.cs:37-91 | appending a parameter never changes what an existing name finds, and a new name finds the appended parameter |
| `Driver.BindPointwise` | Db/OracleCommand.cs:97 | a completed call binds the parameters one by one, keeping length and order |
| `Driver.BindChangesOnlyOutputValues` | Db/OracleCommand.cs:108-113 | a completed call keeps every name, direction, type and size and every input value, and gives each output or return parameter the value the driver handed back |
| `Driver.BindKeepsIndex` | Db/OracleCommand.cs:89-97 | after a completed call every name finds the parameter at the same position |
| `Values.EncodeChar` | Db/OracleCommand.cs:186 | a character inside the Basic Multilingual Plane is one code unit equal to it; one outside is a high surrogate followed by a low surrogate |
| `Values.Utf16` | Db/OracleCommand.cs:186 | a string is at least as many code units long as it has characters |
| `Values.Utf16Append` | Db/OracleCommand.cs:167 | encoding a concatenation concatenates the encodings |
| `Values.Utf16Bmp` | Db/OracleCommand.cs:186 | inside the Basic Multilingual Plane the encoding has one unit per character and commutes with taking a prefix |
| `Values.ToText` | Db/OracleCommand.cs:167-184 | null renders as empty text, a string as itself, a char as its one code unit, an int or long as decimal text that parses back to the value |
| `Values.NatToText` | Db/OracleCommand.cs:167 | an integer's text is a non-empty run of decimal digits without a leading zero |
| `Values.NatTextRoundTrip` | Db/OracleCommand.cs:167 | reading the digits back gives the number |
| `Values.IntToText` | Db/OracleCommand.cs:167 | an integer's text is an optional minus sign and digits that parse back to the integer |
| `DataContexts.OracleDataContext.constructor` | Db/DataContext.cs:44-47 | builds one new, closed connection from the connection string |
| `DataContexts.OracleDataContext.CreateSqlCommand` | Db/DataContext.cs:49-54 | a new Text command with the query as text, no parameters, bound to the context's connection, which stays as it was |
| `DataContexts.OracleDataContext.CreateStoredProcedureCommand` | Db/DataContext.cs:56-62 | a new StoredProcedure command with the name as text, no parameters, bound to the context's connection, which stays as it was |
| `DataContexts.OracleDataContext.CreateFunctionCommand` | Db/DataContext.cs:64-72 | a new StoredProcedure command with exactly one ReturnValue parameter named `resultVarName` (default `"result"`) of the mapped return type (decimal when none is given), bound to the shared connection; fails with the type's name when the type is not mappable |
| `DataContexts.SingleInputCallText` | Db/OracleCommand.cs:162-171 | a command with one string input logs `name=value` as one encoded piece |
| `DataContexts.FunctionCommandDefaultsToDecimal` | Db/DataContext.cs:64-72 | with no return type the function command's return parameter is `result`, Decimal, default size, null |

## Left out

- The Oracle driver (`OracleParameter`, `ExecuteScalar`, `ExecuteNonQuery`, `ExecuteReader`, connection internals) is a foreign library: each execute method takes the driver's outcome as an input, and the connection is reduced to an open/closed flag.
- Where an exception is raised (in `Open` or in the driver call) is not distinguished: both are one `Threw` outcome, and the final state is the same. Whether `Open` on an already open connection throws is driver behaviour and comes in through the outcome.
- An exception thrown by the row adapter is modelled as the reader throwing after the rows already read; the adapter itself is a total function.
- The logging sink `LogFile.Log` and its message templates: each execute method returns the entries it logs, in order, as abstract `LogEntry` values; only the parameter text inside them is modelled exactly.
- `ToString()` of double, decimal and DateTime values depends on the culture and on floating-point formatting: such a value is carried with the text it renders as. `int` and `long` values are rendered as decimal digits with `-` as the negative sign; `string.Format` uses the current culture, whose `NegativeSign` may differ.
- Duplicate parameter names: the code does not check them; lookup takes the first match and the driver's output values are matched by name.
- `GetParam` follows the code's assumption that the name indexer yields null for a missing name.
- `GetList`: does not bind output parameter values after the reader, since the reader is never closed before the connection is and the driver's behaviour there is not visible; the parameter list is left unchanged.
- `Get`: the code's `list == null` test cannot succeed, since `GetList` never returns null; the model returns the first record or the default directly.
- `ExecuteNonQuery`'s count of affected rows is ignored, as the code ignores it.
- Exceptions raised while formatting a log line are not modelled.
- `Connection.Close` is assumed not to throw: in the code it runs unguarded in the `finally` blocks of `Execute`, `SimpleExecute` and `GetList`, so an exception it raised would escape them.
- Parameter names, command text and error messages are Dafny strings (sequences of Unicode scalar values); the rows a reader yields are values of a type parameter, and the adapter is any total function on them; only where the code measures or cuts text, in the logged parameter lists, is text a sequence of UTF-16 code units. A string value holding an unpaired surrogate is representable as `Text`, but names are not.
- `Db/OracleCommandFactory.cs` only calls the command's constructor: the data context constructs commands directly.
- `ExampleRepository/UserRepository.cs` is an example consumer with no mechanism of its own (and does not compile as written); `DataContexts.ClientScenario` instead shows what a caller can conclude from the contracts.
