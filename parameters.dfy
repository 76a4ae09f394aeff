/** Command parameters: what the driver's parameter collection holds for one
    command, and how it finds a parameter by name. */
module Parameters {
  import opened Values

  /** The Oracle types the command binds parameters as. */
  datatype DbType = Varchar2 | Int32 | Char | Long | Double | Date | Decimal | RefCursor

  /** The directions the command gives its parameters. */
  datatype Direction = Input | Output | ReturnValue

  /** The declared size of a parameter, or the driver's default sizing. */
  datatype Size = DefaultSize | Sized(n: nat)

  datatype Param = Param(name: string, direction: Direction, dbType: DbType, size: Size, value: Value)

  /** The position of the first parameter called `name`, or -1 when there is
      none: how the collection's name indexer finds a parameter. */
  function IndexOf(ps: seq<Param>, name: string): (i: int)
    ensures -1 <= i < |ps|
    ensures i == -1 <==> forall k :: 0 <= k < |ps| ==> ps[k].name != name
    ensures i >= 0 ==> ps[i].name == name && forall k :: 0 <= k < i ==> ps[k].name != name
  {
    if ps == [] then -1
    else if ps[0].name == name then 0
    else
      var j := IndexOf(ps[1..], name);
      if j == -1 then -1 else j + 1
  }

  /** Appending a parameter never changes which parameter an existing name
      finds, and a new name finds the appended parameter. */
  lemma {:induction false} IndexOfAppend(ps: seq<Param>, p: Param, name: string)
    ensures IndexOf(ps, name) >= 0 ==> IndexOf(ps + [p], name) == IndexOf(ps, name)
    ensures IndexOf(ps, name) == -1 && p.name == name ==> IndexOf(ps + [p], name) == |ps|
    ensures IndexOf(ps, name) == -1 && p.name != name ==> IndexOf(ps + [p], name) == -1
  {
    var qs := ps + [p];
    assert forall k :: 0 <= k < |ps| ==> qs[k] == ps[k];
    assert qs[|ps|] == p;
  }

  /** Two parameter lists that agree on every name, position by position,
      find every name at the same position. */
  lemma SameNamesSameIndex(ps: seq<Param>, qs: seq<Param>, name: string)
    requires |ps| == |qs|
    requires forall k :: 0 <= k < |ps| ==> ps[k].name == qs[k].name
    ensures IndexOf(ps, name) == IndexOf(qs, name)
  {
  }
}
