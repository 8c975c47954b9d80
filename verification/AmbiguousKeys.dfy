/** The duplicate-name check on an observation, against the value tree it reads. */
module AmbiguousKeys {

  // ---------------------------------------------------------------- values and their tokens

  datatype Json = Scalar | Text(text: string) | Array(items: Items) | Object(members: Members)
  datatype Items = NoItems | Item(head: Json, rest: Items)
  datatype Members = NoMembers | Member(name: string, value: Json, rest: Members)

  /** What the decoder yields: delimiters, strings, and everything else. */
  datatype Token = OpenObject | CloseObject | OpenArray | CloseArray | Word(text: string) | Plain

  function Tokens(v: Json): seq<Token> {
    match v
    case Scalar => [Plain]
    case Text(text) => [Word(text)]
    case Array(items) => [OpenArray] + (ItemTokens(items) + [CloseArray])
    case Object(members) => [OpenObject] + (MemberTokens(members) + [CloseObject])
  }

  function ItemTokens(items: Items): seq<Token> {
    match items
    case NoItems => []
    case Item(head, rest) => Tokens(head) + ItemTokens(rest)
  }

  function MemberTokens(members: Members): seq<Token> {
    match members
    case NoMembers => []
    case Member(name, value, rest) => [Word(name)] + (Tokens(value) + MemberTokens(rest))
  }

  // ---------------------------------------------------------------- what should be accepted

  /** The member names of one object, folded. */
  function Names(members: Members, fold: string -> string): seq<string> {
    match members
    case NoMembers => []
    case Member(name, _, rest) => [fold(name)] + Names(rest, fold)
  }

  ghost predicate NoRepeat(names: seq<string>) {
    forall i, j :: 0 <= i < j < |names| ==> names[i] != names[j]
  }

  /** No object at any depth has two members whose names fold to the same text. */
  ghost predicate Clear(v: Json, fold: string -> string) {
    match v
    case Scalar => true
    case Text(_) => true
    case Array(items) => AllClear(items, fold)
    case Object(members) => NoRepeat(Names(members, fold)) && ValuesClear(members, fold)
  }

  ghost predicate AllClear(items: Items, fold: string -> string) {
    match items
    case NoItems => true
    case Item(head, rest) => Clear(head, fold) && AllClear(rest, fold)
  }

  ghost predicate ValuesClear(members: Members, fold: string -> string) {
    match members
    case NoMembers => true
    case Member(_, value, rest) => Clear(value, fold) && ValuesClear(rest, fold)
  }

  // ---------------------------------------------------------------- the machine

  datatype Frame = Frame(isObject: bool, keys: set<string>, nameNext: bool)

  /** Underflow is the slice of an empty stack, which panics. */
  datatype Outcome = Running(stack: seq<Frame>) | Ambiguous | Underflow

  /** A value completed: its parent object, if any, expects a name next. */
  function Settle(stack: seq<Frame>): seq<Frame> {
    if stack != [] && stack[|stack| - 1].isObject
    then stack[..|stack| - 1] + [stack[|stack| - 1].(nameNext := true)] else stack
  }

  function Consume(stack: seq<Frame>, token: Token, fold: string -> string): Outcome {
    var n := |stack|;
    if token.Word? && n > 0 && stack[n - 1].isObject && stack[n - 1].nameNext then
      if fold(token.text) in stack[n - 1].keys then Ambiguous
      else Running(stack[..n - 1] + [Frame(true, stack[n - 1].keys + {fold(token.text)}, false)])
    else match token
      case OpenObject => Running(stack + [Frame(true, {}, true)])
      case OpenArray => Running(stack + [Frame(false, {}, false)])
      case CloseObject => if n == 0 then Underflow else Running(Settle(stack[..n - 1]))
      case CloseArray => if n == 0 then Underflow else Running(Settle(stack[..n - 1]))
      case _ => Running(Settle(stack))
  }

  function Run(stack: seq<Frame>, tokens: seq<Token>, fold: string -> string): Outcome
    decreases |tokens|
  {
    if tokens == [] then Running(stack)
    else match Consume(stack, tokens[0], fold)
      case Running(next) => Run(next, tokens[1..], fold)
      case failed => failed
  }

  lemma RunCons(stack: seq<Frame>, token: Token, rest: seq<Token>, fold: string -> string)
    ensures var first := Consume(stack, token, fold);
      Run(stack, [token] + rest, fold) == if first.Running? then Run(first.stack, rest, fold) else first
  {
  }

  // ---------------------------------------------------------------- one value at a time

  /** The machine is where a value may start. */
  predicate Ready(stack: seq<Frame>) {
    stack == [] || !stack[|stack| - 1].isObject || !stack[|stack| - 1].nameNext
  }

  /** Reading a value's tokens settles the stack below it, or stops at a repeated name. */
  lemma {:induction false} ReadsValue(stack: seq<Frame>, v: Json, rest: seq<Token>, fold: string -> string)
    requires Ready(stack)
    ensures Run(stack, Tokens(v) + rest, fold) == if Clear(v, fold) then Run(Settle(stack), rest, fold) else Ambiguous
    decreases v
  {
    match v
    case Scalar => RunCons(stack, Plain, rest, fold);
    case Text(text) => RunCons(stack, Word(text), rest, fold);
    case Array(items) =>
      var after := [CloseArray] + rest;
      assert Tokens(v) + rest == [OpenArray] + (ItemTokens(items) + after);
      RunCons(stack, OpenArray, ItemTokens(items) + after, fold);
      ReadsItems(stack, items, after, fold);
    case Object(members) =>
      var after := [CloseObject] + rest;
      assert Tokens(v) + rest == [OpenObject] + (MemberTokens(members) + after);
      RunCons(stack, OpenObject, MemberTokens(members) + after, fold);
      ReadsMembers(stack, {}, members, after, fold);
  }

  lemma {:induction false} ReadsItems(stack: seq<Frame>, items: Items, rest: seq<Token>, fold: string -> string)
    ensures var inside := stack + [Frame(false, {}, false)];
      Run(inside, ItemTokens(items) + rest, fold) == if AllClear(items, fold) then Run(inside, rest, fold) else Ambiguous
    decreases items
  {
    match items
    case NoItems => assert ItemTokens(items) + rest == rest;
    case Item(head, more) =>
      assert ItemTokens(items) + rest == Tokens(head) + (ItemTokens(more) + rest);
      ReadsValue(stack + [Frame(false, {}, false)], head, ItemTokens(more) + rest, fold);
      ReadsItems(stack, more, rest, fold);
  }

  ghost function Range(names: seq<string>): set<string> {
    set i | 0 <= i < |names| :: names[i]
  }

  /** None of the names is in the set, and none repeats. */
  ghost predicate FreshNames(keys: set<string>, names: seq<string>) {
    NoRepeat(names) && keys !! Range(names)
  }

  lemma FreshNamesCons(keys: set<string>, first: string, names: seq<string>)
    ensures FreshNames(keys, [first] + names) <==> first !in keys && FreshNames(keys + {first}, names)
    ensures Range([first] + names) == {first} + Range(names)
  {
    var all := [first] + names;
    assert all[0] == first && forall i :: 0 <= i < |names| ==> all[i + 1] == names[i];
    assert forall x :: x in Range(names) ==> x in Range(all);
    assert forall i :: 1 <= i < |all| ==> all[i] == names[i - 1];
  }

  lemma {:induction false} ReadsMembers(stack: seq<Frame>, keys: set<string>, members: Members, rest: seq<Token>, fold: string -> string)
    ensures Run(stack + [Frame(true, keys, true)], MemberTokens(members) + rest, fold)
         == if FreshNames(keys, Names(members, fold)) && ValuesClear(members, fold)
            then Run(stack + [Frame(true, keys + Range(Names(members, fold)), true)], rest, fold) else Ambiguous
    decreases members
  {
    match members
    case NoMembers =>
      assert MemberTokens(members) + rest == rest;
      assert keys + Range([]) == keys;
    case Member(name, value, more) =>
      var key, names := fold(name), Names(more, fold);
      var later := MemberTokens(more) + rest;
      var inside := stack + [Frame(true, keys, true)];
      assert MemberTokens(members) + rest == [Word(name)] + (Tokens(value) + later);
      RunCons(inside, Word(name), Tokens(value) + later, fold);
      assert inside[..|stack|] == stack;
      FreshNamesCons(keys, key, names);
      if key !in keys {
        var reading := stack + [Frame(true, keys + {key}, false)];
        ReadsValue(reading, value, later, fold);
        assert Settle(reading) == stack + [Frame(true, keys + {key}, true)];
        ReadsMembers(stack, keys + {key}, more, rest, fold);
        assert keys + {key} + Range(names) == keys + Range([key] + names);
      }
  }

  // ---------------------------------------------------------------- whole inputs

  lemma {:induction false} ReadsSequence(items: Items, fold: string -> string)
    ensures Run([], ItemTokens(items), fold) == if AllClear(items, fold) then Running([]) else Ambiguous
    decreases items
  {
    match items
    case NoItems =>
    case Item(head, more) =>
      ReadsValue([], head, ItemTokens(more), fold);
      ReadsSequence(more, fold);
  }

  lemma {:induction false} PrefixFailsNoLater(stack: seq<Frame>, tokens: seq<Token>, n: nat, fold: string -> string)
    requires n <= |tokens| && !Run(stack, tokens[..n], fold).Running?
    ensures Run(stack, tokens, fold) == Run(stack, tokens[..n], fold)
    decreases |tokens|
  {
    if n > 0 {
      assert tokens[..n][1..] == tokens[1..][..n - 1] && tokens[..n][0] == tokens[0];
      var first := Consume(stack, tokens[0], fold);
      if first.Running? {
        PrefixFailsNoLater(first.stack, tokens[1..], n - 1, fold);
      }
    }
  }

  /** On the tokens of any sequence of JSON values the check passes exactly when no object at
      any depth repeats a folded name; and however early the input breaks off, the stack is
      never popped empty. */
  lemma AcceptsExactlyClearInput(items: Items, n: nat, fold: string -> string)
    requires n <= |ItemTokens(items)|
    ensures Run([], ItemTokens(items), fold).Running? <==> AllClear(items, fold)
    ensures !Run([], ItemTokens(items)[..n], fold).Underflow?
  {
    ReadsSequence(items, fold);
    if !Run([], ItemTokens(items)[..n], fold).Running? {
      PrefixFailsNoLater([], ItemTokens(items), n, fold);
    }
  }

  datatype Verdict = Accepted | Repeated | Malformed

  /** The loop over the decoder: `broken` when it ends in a decoding error rather than at the
      end of the input. The tokens are those of a JSON text as far as they go. */
  method RejectAmbiguousKeys(tokens: seq<Token>, broken: bool, fold: string -> string) returns (verdict: Verdict)
    requires !Run([], tokens, fold).Underflow?
    ensures verdict == if Run([], tokens, fold).Ambiguous? then Repeated else if broken then Malformed else Accepted
  {
    var stack: seq<Frame> := [];
    var i := 0;
    while i < |tokens|
      invariant 0 <= i <= |tokens|
      invariant Run([], tokens, fold) == Run(stack, tokens[i..], fold)
    {
      var token := tokens[i];
      assert tokens[i..][1..] == tokens[i + 1..];
      i := i + 1;
      var n := |stack|;
      if token.Word? && n > 0 && stack[n - 1].isObject && stack[n - 1].nameNext {
        var folded := fold(token.text);
        if folded in stack[n - 1].keys {
          return Repeated;
        }
        stack := stack[..n - 1] + [Frame(true, stack[n - 1].keys + {folded}, false)];
        continue;
      }
      match token {
        case OpenObject =>
          stack := stack + [Frame(true, {}, true)];
          continue;
        case OpenArray =>
          stack := stack + [Frame(false, {}, false)];
          continue;
        case CloseObject => stack := stack[..n - 1];
        case CloseArray => stack := stack[..n - 1];
        case _ =>
      }
      if stack != [] && stack[|stack| - 1].isObject {
        stack := stack[..|stack| - 1] + [stack[|stack| - 1].(nameNext := true)];
      }
    }
    return if broken then Malformed else Accepted;
  }
}
