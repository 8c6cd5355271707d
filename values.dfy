/** Argument values passed to the localization functions, and the ways a call can fail. */
module LocValues {

  /** A localization argument: the engine's number or string value. */
  datatype LocValue = Num(n: real) | Str(s: string)

  datatype Kind = NumberKind | StringKind

  /** Why a built-in could not produce a value: the exceptions the C# code would throw. */
  datatype LocError =
    | ArityMismatch(index: nat)                // `args.Args[index]` is out of range
    | TypeMismatch(index: nat, expected: Kind) // the cast of `args.Args[index]` fails
    | DecimalsOutOfRange(digits: int)          // `NumberDecimalDigits` refuses values outside 0..99
    | SeparatorNotOneChar(separator: string)   // `char.Parse` refuses a separator that is not one character

  datatype Option<+T> = None | Some(value: T)

  datatype Result<+T> = Ok(value: T) | Err(error: LocError) {
    predicate IsFailure() { Err? }
    function PropagateFailure<U>(): Result<U>
      requires Err?
    {
      Err(error)
    }
    function Extract(): T
      requires Ok?
    {
      value
    }
  }

  /** `((LocValueNumber) args.Args[i]).Value` */
  function NumberArg(args: seq<LocValue>, i: nat): (r: Result<real>)
    ensures r.Ok? <==> i < |args| && args[i].Num?
    ensures r.Ok? ==> r.value == args[i].n
    ensures r.Err? ==> r.error == (if i < |args| then TypeMismatch(i, NumberKind) else ArityMismatch(i))
  {
    if i >= |args| then Err(ArityMismatch(i))
    else if args[i].Num? then Ok(args[i].n)
    else Err(TypeMismatch(i, NumberKind))
  }

  /** `((LocValueString) args.Args[i]).Value` */
  function StringArg(args: seq<LocValue>, i: nat): (r: Result<string>)
    ensures r.Ok? <==> i < |args| && args[i].Str?
    ensures r.Ok? ==> r.value == args[i].s
    ensures r.Err? ==> r.error == (if i < |args| then TypeMismatch(i, StringKind) else ArityMismatch(i))
  {
    if i >= |args| then Err(ArityMismatch(i))
    else if args[i].Str? then Ok(args[i].s)
    else Err(TypeMismatch(i, StringKind))
  }
}
