/**
 * The variable frames of pylox/environment.py: each `Environment` maps names
 * to values and may point to an enclosing frame. `UNINITIALIZED` is the slot
 * `Uninitialized`. The class is generic in the value type so that the object
 * model, whose functions capture an environment, can instantiate it.
 *
 * `Frames()` lists the name maps along the `enclosing` chain, innermost first;
 * `Lookup` and `AssignFrames` say what `get` and `assign` do to that list.
 */
module Environments {
  import opened Wrappers
  import opened LoxAst
  import opened Errors

  /** A stored value, or the `UNINITIALIZED` sentinel. */
  datatype Slot<+V> = Uninitialized | Bound(value: V)

  type Frame<V> = map<string, Slot<V>>

  function UndefinedMessage(name: string): string
  {
    "Undefined variable '" + name + "'."
  }

  function UninitializedMessage(name: string): string
  {
    "Uninitialized variable '" + name + "'."
  }

  /**
   * `get` along a chain of frames: the innermost frame holding the name decides;
   * the sentinel raises a `LoxRuntimeError`, a name no frame holds Python's
   * built-in `RuntimeError`.
   */
  function Lookup<V>(frames: seq<Frame<V>>, name: Token): Result<V>
  {
    if frames == [] then Err(BuiltinRuntimeError(name, UndefinedMessage(name.lexeme)))
    else if name.lexeme in frames[0] then
      match frames[0][name.lexeme]
      case Uninitialized => Err(LoxRuntimeError(name, UninitializedMessage(name.lexeme)))
      case Bound(v) => Ok(v)
    else Lookup(frames[1..], name)
  }

  /** `assign` along a chain of frames: the new chain, or the error for a name no frame holds. */
  function AssignFrames<V>(frames: seq<Frame<V>>, name: Token, value: V): Result<seq<Frame<V>>>
  {
    if frames == [] then Err(LoxRuntimeError(name, UndefinedMessage(name.lexeme)))
    else if name.lexeme in frames[0] then Ok([frames[0][name.lexeme := Bound(value)]] + frames[1..])
    else
      match AssignFrames(frames[1..], name, value)
      case Err(e) => Err(e)
      case Ok(rest) => Ok([frames[0]] + rest)
  }

  /** The index of the innermost frame holding `key`. */
  predicate InnermostAt<V>(frames: seq<Frame<V>>, key: string, k: nat)
  {
    k < |frames| && key in frames[k] && forall j :: 0 <= j < k ==> key !in frames[j]
  }

  // ----- what get and assign guarantee -----

  /** `get` answers from the innermost frame holding the name. */
  lemma {:induction false} LookupInnermost<V>(frames: seq<Frame<V>>, name: Token, k: nat)
    requires InnermostAt(frames, name.lexeme, k)
    ensures frames[k][name.lexeme].Bound? ==> Lookup(frames, name) == Ok(frames[k][name.lexeme].value)
    ensures frames[k][name.lexeme].Uninitialized? ==>
      Lookup(frames, name) == Err(LoxRuntimeError(name, UninitializedMessage(name.lexeme)))
  {
    if k > 0 {
      LookupInnermost(frames[1..], name, k - 1);
    }
  }

  /** `get` of a name no frame holds raises the built-in `RuntimeError`, not a `LoxRuntimeError`. */
  lemma {:induction false} LookupUnbound<V>(frames: seq<Frame<V>>, name: Token)
    requires forall j :: 0 <= j < |frames| ==> name.lexeme !in frames[j]
    ensures Lookup(frames, name) == Err(BuiltinRuntimeError(name, UndefinedMessage(name.lexeme)))
  {
    if frames != [] {
      LookupUnbound(frames[1..], name);
    }
  }

  /** `assign` rewrites the innermost frame holding the name, and nothing else. */
  lemma {:induction false} AssignInnermost<V>(frames: seq<Frame<V>>, name: Token, value: V, k: nat)
    requires InnermostAt(frames, name.lexeme, k)
    ensures AssignFrames(frames, name, value) == Ok(frames[k := frames[k][name.lexeme := Bound(value)]])
  {
    if k > 0 {
      assert name.lexeme !in frames[0];
      assert InnermostAt(frames[1..], name.lexeme, k - 1) by {
        forall j | 0 <= j < k - 1 ensures name.lexeme !in frames[1..][j] {
          assert frames[1..][j] == frames[j + 1];
        }
      }
      AssignInnermost(frames[1..], name, value, k - 1);
      assert frames[1..][k - 1] == frames[k];
      var rest := frames[1..][k - 1 := frames[k][name.lexeme := Bound(value)]];
      assert [frames[0]] + rest == frames[k := frames[k][name.lexeme := Bound(value)]];
    } else {
      assert [frames[0][name.lexeme := Bound(value)]] + frames[1..] == frames[0 := frames[0][name.lexeme := Bound(value)]];
    }
  }

  /** `assign` to a name no frame holds raises a `LoxRuntimeError` and binds nothing. */
  lemma {:induction false} AssignUnbound<V>(frames: seq<Frame<V>>, name: Token, value: V)
    requires forall j :: 0 <= j < |frames| ==> name.lexeme !in frames[j]
    ensures AssignFrames(frames, name, value) == Err(LoxRuntimeError(name, UndefinedMessage(name.lexeme)))
  {
    if frames != [] {
      AssignUnbound(frames[1..], name, value);
    }
  }

  /** A name is held by some frame exactly when it has an innermost one. */
  lemma {:induction false} SomeInnermost<V>(frames: seq<Frame<V>>, key: string, i: nat)
    requires i < |frames| && key in frames[i]
    ensures exists k: nat :: InnermostAt(frames, key, k)
  {
    if i > 0 && key !in frames[0] {
      SomeInnermost(frames[1..], key, i - 1);
      var k: nat :| InnermostAt(frames[1..], key, k);
      assert InnermostAt(frames, key, k + 1) by {
        forall j | 0 < j < k + 1 ensures key !in frames[j] {
          assert frames[j] == frames[1..][j - 1];
        }
      }
    } else if key in frames[0] {
      assert InnermostAt(frames, key, 0);
    }
  }

  /** What `assign` stored, `get` returns. */
  lemma AssignThenLookup<V>(frames: seq<Frame<V>>, name: Token, value: V)
    requires AssignFrames(frames, name, value).Ok?
    ensures Lookup(AssignFrames(frames, name, value).value, name) == Ok(value)
  {
    if forall j :: 0 <= j < |frames| ==> name.lexeme !in frames[j] {
      AssignUnbound(frames, name, value);
    } else {
      var i :| 0 <= i < |frames| && name.lexeme in frames[i];
      SomeInnermost(frames, name.lexeme, i);
      var k: nat :| InnermostAt(frames, name.lexeme, k);
      AssignInnermost(frames, name, value, k);
      var after := frames[k := frames[k][name.lexeme := Bound(value)]];
      assert InnermostAt(after, name.lexeme, k);
      LookupInnermost(after, name, k);
    }
  }

  /** `define` binds in the current frame, hiding every enclosing binding of the name. */
  lemma DefineThenLookup<V>(frames: seq<Frame<V>>, name: Token, slot: Slot<V>)
    requires frames != []
    ensures var defined := [frames[0][name.lexeme := slot]] + frames[1..];
      && (slot.Bound? ==> Lookup(defined, name) == Ok(slot.value))
      && (slot.Uninitialized? ==> Lookup(defined, name) == Err(LoxRuntimeError(name, UninitializedMessage(name.lexeme))))
  {
  }

  // ----- the frame object -----

  /** `Environment`: a mutable name map and a fixed enclosing frame. */
  class Environment<V> {
    var values: Frame<V>
    const enclosing: Option<Environment<V>>
    /** The frames of the chain from this one outwards. */
    ghost const Repr: set<object>

    /** The chain is finite and acyclic. */
    ghost predicate Valid()
      decreases Repr
    {
      && this in Repr
      && (enclosing.Some? ==>
            && enclosing.value in Repr
            && enclosing.value.Repr < Repr
            && this !in enclosing.value.Repr
            && enclosing.value.Valid())
    }

    /** The name maps along the chain, innermost first. */
    ghost function Frames(): seq<Frame<V>>
      requires Valid()
      reads Repr
      decreases Repr
    {
      [values] + if enclosing.Some? then enclosing.value.Frames() else []
    }

    constructor (enclosing: Option<Environment<V>>)
      requires enclosing.Some? ==> enclosing.value.Valid()
      ensures Valid() && this.enclosing == enclosing && values == map[]
      ensures Repr == {this} + if enclosing.Some? then enclosing.value.Repr else {}
    {
      values := map[];
      this.enclosing := enclosing;
      Repr := {this} + if enclosing.Some? then enclosing.value.Repr else {};
    }

    /** The name maps along the chain as they stand, innermost first. */
    method Chain() returns (frames: seq<Frame<V>>)
      requires Valid()
      ensures frames == Frames()
      decreases Repr
    {
      frames := [values];
      if enclosing.Some? {
        var outer := enclosing.value.Chain();
        frames := frames + outer;
      }
    }

    /** `define`: bind in this frame only, overwriting any binding here. */
    method Define(name: Token, slot: Slot<V>)
      modifies this`values
      ensures values == old(values)[name.lexeme := slot]
    {
      values := values[name.lexeme := slot];
    }

    /** `get`: this frame, then the enclosing chain. */
    method Get(name: Token) returns (r: Result<V>)
      requires Valid()
      ensures r == Lookup(Frames(), name)
      decreases Repr
    {
      if name.lexeme in values {
        if values[name.lexeme].Uninitialized? {
          return Err(LoxRuntimeError(name, UninitializedMessage(name.lexeme)));
        }
        return Ok(values[name.lexeme].value);
      }
      if enclosing.Some? {
        r := enclosing.value.Get(name);
        return;
      }
      return Err(BuiltinRuntimeError(name, UndefinedMessage(name.lexeme)));
    }

    /** `assign`: overwrite the innermost binding of the name along the chain. */
    method Assign(name: Token, value: V) returns (r: Result<()>)
      requires Valid()
      modifies Repr
      ensures Valid()
      ensures match AssignFrames(old(Frames()), name, value)
        case Ok(frames) => r == Ok(()) && Frames() == frames
        case Err(e) => r == Err(e) && Frames() == old(Frames())
      decreases Repr
    {
      if name.lexeme in values {
        values := values[name.lexeme := Bound(value)];
        return Ok(());
      }
      if enclosing.Some? {
        r := enclosing.value.Assign(name, value);
        return;
      }
      assert AssignFrames(Frames()[1..], name, value).Err?;
      return Err(LoxRuntimeError(name, UndefinedMessage(name.lexeme)));
    }
  }
}
