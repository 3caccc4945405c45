/**
 The command builder of the standard library, as it is documented: a program, its arguments, and the
 edits to the environment that the child will see.  An environment is a list of name and value
 pairs, in which a later pair shadows an earlier one of the same name.
 */
module CommandBuilder {
  import opened Wrappers

  /** The last value given to `name` in a list of pairs. */
  function LastValue(pairs: seq<(string, string)>, name: string): Option<string> {
    if pairs == [] then None
    else
      var last := pairs[|pairs| - 1];
      if last.0 == name then Some(last.1) else LastValue(pairs[..|pairs| - 1], name)
  }

  class Command {
    const program: string
    var args: seq<string>
    var clear: bool
    var vars: map<string, Option<string>>

    /** What `name` is in the child if the command is spawned by a parent with `parent`. */
    ghost function ChildValue(parent: seq<(string, string)>, name: string): Option<string>
      reads this`clear, this`vars
    {
      if name in vars then vars[name]
      else if clear then None
      else LastValue(parent, name)
    }

    constructor (program: string)
      ensures this.program == program && args == [] && !clear && vars == map[]
    {
      this.program := program;
      args, clear, vars := [], false, map[];
    }

    method Args(more: seq<string>)
      modifies this`args
      ensures args == old(args) + more
    {
      args := args + more;
    }

    method EnvClear()
      modifies this`clear, this`vars
      ensures clear && vars == map[]
    {
      clear, vars := true, map[];
    }

    method Env(name: string, value: string)
      modifies this`vars
      ensures vars == old(vars)[name := Some(value)]
    {
      vars := vars[name := Some(value)];
    }

    method EnvRemove(name: string)
      modifies this`vars
      ensures vars == if clear then old(vars) - {name} else old(vars)[name := None]
    {
      vars := if clear then vars - {name} else vars[name := None];
    }
  }
}
