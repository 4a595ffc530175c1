/** The five module-format keys and how the command line selects among them. */
module Formats {
  import opened Wrappers

  datatype Format = Esm | Cjs | Sysjs | Amd | Umd

  function Key(f: Format): string {
    match f
    case Esm => "esm"
    case Cjs => "cjs"
    case Sysjs => "sysjs"
    case Amd => "amd"
    case Umd => "umd"
  }

  /** Whether an argument is one of the five format keys, and which. */
  function Parse(arg: string): (r: Option<Format>)
    ensures r.Some? ==> Key(r.value) == arg
  {
    if arg == "cjs" then Some(Cjs)
    else if arg == "sysjs" then Some(Sysjs)
    else if arg == "amd" then Some(Amd)
    else if arg == "umd" then Some(Umd)
    else if arg == "esm" then Some(Esm)
    else None
  }

  /** An argument is recognised exactly when it is one of the five keys. */
  lemma ParseKey(arg: string, f: Format)
    ensures Parse(arg) == Some(f) <==> arg == Key(f)
  {
  }

  /** The recognised arguments, wherever they stand, in order, duplicates kept. */
  function Select(args: seq<string>): (r: seq<Format>)
    ensures |r| <= |args|
  {
    if args == [] then []
    else (if Parse(args[0]).Some? then [Parse(args[0]).value] else []) + Select(args[1..])
  }

  /** Selection is a filter: it distributes over concatenation. */
  lemma {:induction false} SelectAppend(a: seq<string>, b: seq<string>)
    ensures Select(a + b) == Select(a) + Select(b)
  {
    if a != [] {
      assert (a + b)[1..] == a[1..] + b;
      SelectAppend(a[1..], b);
    } else {
      assert a + b == b;
    }
  }

  /** A single argument contributes its format, or nothing. */
  lemma SelectOne(arg: string)
    ensures Select([arg]) == if Parse(arg).Some? then [Parse(arg).value] else []
  {
    assert [arg][1..] == [];
  }

  /** A format is selected exactly when its key is among the arguments. */
  lemma {:induction false} SelectMembers(args: seq<string>, f: Format)
    ensures f in Select(args) <==> Key(f) in args
  {
    if args != [] {
      SelectMembers(args[1..], f);
      ParseKey(args[0], f);
      assert Key(f) in args <==> Key(f) == args[0] || Key(f) in args[1..];
    }
  }

  /** Nothing is selected exactly when no argument is a format key. */
  lemma {:induction false} SelectEmpty(args: seq<string>)
    ensures Select(args) == [] <==> forall i :: 0 <= i < |args| ==> Parse(args[i]).None?
  {
    if args != [] {
      SelectEmpty(args[1..]);
      assert forall i :: 1 <= i < |args| ==> args[i] == args[1..][i - 1];
    }
  }

  /** The selection as used: `esm` alone when nothing was selected. */
  function Resolve(selected: seq<Format>): (r: seq<Format>)
    ensures r != []
    ensures selected != [] ==> r == selected
  {
    if selected == [] then [Esm] else selected
  }

  /** Without a format key on the command line, the build targets `esm` alone. */
  lemma DefaultIsEsm(args: seq<string>)
    requires forall i :: 0 <= i < |args| ==> Parse(args[i]).None?
    ensures Resolve(Select(args)) == [Esm]
  {
    SelectEmpty(args);
  }
}
