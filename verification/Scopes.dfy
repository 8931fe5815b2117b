/** The symbol table that passes over the IR keep: a stack of values per name, in front of
    a table that belongs to someone else. */
module Scopes {

  type Stacks<T> = map<string, seq<T>>

  /** An entry whose stack runs empty is erased. */
  predicate NoEmptyStack<T>(table: Stacks<T>) { forall n :: n in table ==> |table[n]| > 0 }

  function Pushed<T>(table: Stacks<T>, name: string, v: T): Stacks<T> {
    table[name := (if name in table then table[name] else []) + [v]]
  }

  function Popped<T>(table: Stacks<T>, name: string): Stacks<T>
    requires name in table && |table[name]| > 0
  {
    if |table[name]| == 1 then table - {name} else table[name := table[name][..|table[name]| - 1]]
  }

  /** What each name stands for. */
  function Viewed<T>(outer: map<string, T>, table: Stacks<T>): map<string, T>
    requires NoEmptyStack(table)
  {
    outer + map n | n in table :: table[n][|table[n]| - 1]
  }

  /** Leaving a scope restores exactly what was there before it was entered. */
  lemma PopUndoesPush<T>(table: Stacks<T>, name: string, v: T)
    requires NoEmptyStack(table)
    ensures Popped(Pushed(table, name, v), name) == table
  {
    var p := Pushed(table, name, v);
    if name in table {
      assert p[name][..|p[name]| - 1] == table[name];
    } else {
      assert p[name] == [v];
    }
  }

  /** A push hides the name and changes no other. */
  lemma PushHides<T>(outer: map<string, T>, table: Stacks<T>, name: string, v: T)
    requires NoEmptyStack(table)
    ensures NoEmptyStack(Pushed(table, name, v))
    ensures Viewed(outer, Pushed(table, name, v)) == Viewed(outer, table)[name := v]
  {}

  class SymbolScope<T> {
    var table: Stacks<T>
    const outer: map<string, T>

    predicate Valid()
      reads this
    {
      NoEmptyStack(table)
    }

    function View(): map<string, T>
      requires Valid()
      reads this
    {
      Viewed(outer, table)
    }

    constructor (containing: map<string, T>)
      ensures Valid() && View() == containing && table == map[] && outer == containing
    {
      outer := containing;
      table := map[];
    }

    method Push(name: string, v: T)
      requires Valid()
      modifies this
      ensures Valid() && table == Pushed(old(table), name, v)
      ensures View() == old(View())[name := v]
    {
      PushHides(outer, table, name, v);
      table := table[name := (if name in table then table[name] else []) + [v]];
    }

    method Pop(name: string)
      requires Valid() && name in table
      modifies this
      ensures Valid() && table == Popped(old(table), name)
    {
      var stack := table[name];
      if |stack| == 1 {
        table := table - {name};
      } else {
        table := table[name := stack[..|stack| - 1]];
      }
    }

    method Contains(name: string) returns (b: bool)
      requires Valid()
      ensures b == (name in View())
    {
      b := name in table || name in outer;
    }

    method Get(name: string) returns (v: T)
      requires Valid() && name in View()
      ensures v == View()[name]
    {
      if name in table {
        v := table[name][|table[name]| - 1];
      } else {
        v := outer[name];
      }
    }
  }
}
