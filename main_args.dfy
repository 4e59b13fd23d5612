/**
 * The argument rewriting of main.ts: the default of the `ordered` flag,
 * the expansion of a shorthand at the head of the command, the `key=value`
 * arguments of `submit`, and the `do` command's choice of action. The
 * parsed options object is a class whose fields these steps reassign.
 */
module MainArgs {
  import opened Wrappers
  import opened JsStrings
  import opened JsMaps

  // ---------------------------------------------------------------------------
  // The `ordered` flag

  /**
   * The value `options.ordered` ends with: false when `--unordered` was
   * given, otherwise as given, otherwise not `--json`.
   */
  function DefaultedOrdered(ordered: Option<bool>, unordered: bool, json: bool): bool {
    if unordered then false
    else if ordered.Some? then ordered.value
    else !json
  }

  /** `--unordered` wins over `--ordered`; an explicit flag is kept; without either, JSON output is unordered and printed output is ordered. */
  lemma OrderedDefault(ordered: Option<bool>, unordered: bool, json: bool)
    ensures unordered ==> !DefaultedOrdered(ordered, unordered, json)
    ensures !unordered && ordered.Some? ==> DefaultedOrdered(ordered, unordered, json) == ordered.value
    ensures !unordered && ordered.None? ==> (DefaultedOrdered(ordered, unordered, json) <==> !json)
  {
  }

  // ---------------------------------------------------------------------------
  // Shorthands

  /** A table of shorthands: a name and the command words it stands for. */
  type Shorthands = map<string, seq<string>>

  /** `{ ...shorthands, ...userShorthands }` */
  function MergedShorthands(builtin: Shorthands, user: Shorthands): (table: Shorthands)
    ensures table.Keys == builtin.Keys + user.Keys
  {
    builtin + user
  }

  /** On a name in both tables the user's expansion wins; every other name keeps its own. */
  lemma UserShorthandsWin(builtin: Shorthands, user: Shorthands, name: string)
    ensures name in user ==> MergedShorthands(builtin, user)[name] == user[name]
    ensures name !in user && name in builtin ==> MergedShorthands(builtin, user)[name] == builtin[name]
    ensures name !in user && name !in builtin ==> name !in MergedShorthands(builtin, user)
  {
  }

  /**
   * The command after the shorthand step: when the first word, trimmed, is
   * a shorthand, its expansion followed by the remaining words; otherwise
   * the command as it was (with the first word untrimmed).
   */
  function Expanded(command: seq<string>, table: Shorthands): seq<string> {
    if command != [] && Trim(command[0]) in table then table[Trim(command[0])] + command[1..]
    else command
  }

  /**
   * A shorthand is expanded once: the result starts with its expansion and
   * ends with the other words, even when the expansion starts with a
   * shorthand itself.
   */
  lemma ExpansionOnce(command: seq<string>, table: Shorthands)
    requires command != [] && Trim(command[0]) in table
    ensures var e := table[Trim(command[0])];
            && Expanded(command, table)[..|e|] == e
            && Expanded(command, table)[|e|..] == command[1..]
            && |Expanded(command, table)| == |e| + |command| - 1
  {
  }

  /** Without a shorthand at its head, the command is left alone; an empty command too. */
  lemma NoShorthandUnchanged(command: seq<string>, table: Shorthands)
    requires command == [] || Trim(command[0]) !in table
    ensures Expanded(command, table) == command
  {
  }

  // ---------------------------------------------------------------------------
  // `submit key=value ...`

  /**
   * One argument as `submit` reads it: split on "=", the first piece
   * trimmed is the key, and the other pieces joined by "=" are the value.
   */
  function FormPair(v: string): (string, string) {
    var splitted := Split(v, "=");
    (Trim(splitted[0]), Join(splitted[1..], "="))
  }

  /** The pairs of all arguments, in order. */
  function FormPairs(args: seq<string>): (kvs: seq<(string, string)>)
    ensures |kvs| == |args|
    ensures forall i :: 0 <= i < |args| ==> kvs[i] == FormPair(args[i])
  {
    seq(|args|, i requires 0 <= i < |args| => FormPair(args[i]))
  }

  /** The text before the first "=" holds no "=". */
  lemma BeforeEqualsFree(v: string)
    ensures !Contains(BeforeFirst(v, '='), "=")
  {
    BeforeFirstFacts(v, '=');
    if Contains(BeforeFirst(v, '='), "=") {
      ContainsHasHead(BeforeFirst(v, '='), "=");
    }
  }

  /** With an "=" in the argument, the pieces after the first are those of the text after it. */
  lemma PiecesAfterFirst(v: string)
    requires '=' in v
    ensures var before := BeforeFirst(v, '=');
            |before| < |v| && Split(v, "=") == [before] + Split(v[|before| + 1..], "=")
  {
    var before := BeforeFirst(v, '=');
    BeforeFirstFacts(v, '=');
    BeforeEqualsFree(v);
    var rest := v[|before| + 1..];
    assert v == before + "=" + rest;
    SplitAfterFree(before, "=", rest);
  }

  /**
   * The key is the text before the first "=", trimmed; the value is
   * everything after that "=", further "=" signs included, or empty when
   * there is none.
   */
  lemma FormPairSplitsAtFirst(v: string)
    ensures var before := BeforeFirst(v, '=');
            && FormPair(v).0 == Trim(before)
            && ('=' in v ==> |before| < |v| && FormPair(v).1 == v[|before| + 1..])
            && ('=' !in v ==> FormPair(v).1 == "")
  {
    BeforeFirstIsFirstPiece(v, '=');
    assert "=" == ['='];
    if '=' in v {
      PiecesAfterFirst(v);
      var rest := v[|BeforeFirst(v, '=')| + 1..];
      assert Split(v, "=")[1..] == Split(rest, "=");
      SplitThenJoin(rest, "=");
    } else {
      BeforeFirstFacts(v, '=');
      BeforeEqualsFree(v);
      SplitFree(v, "=");
    }
  }

  /** The form `submit` builds from its arguments (main.ts:578-589). */
  function Form(args: seq<string>): (form: JsMap<string, string>)
    ensures form.Valid()
  {
    SetAll(Empty(), FormPairs(args))
  }

  /** A key holds the value of the last argument with that key; the form has no other keys. */
  lemma FormLastWins(args: seq<string>, key: string)
    ensures Form(args).Get(key) == LastFor(FormPairs(args), key)
  {
    SetAllGet(Empty(), FormPairs(args), key);
  }

  /** A key is in the form exactly when some argument has it as its key. */
  lemma FormKeys(args: seq<string>, key: string)
    ensures key in Form(args).entries <==> exists i :: 0 <= i < |args| && FormPair(args[i]).0 == key
  {
    FormLastWins(args, key);
    var kvs := FormPairs(args);
    if key in Form(args).entries {
      var i := LastForIndex(kvs, key);
      assert FormPair(args[i]).0 == key;
    }
    if exists i :: 0 <= i < |args| && FormPair(args[i]).0 == key {
      var i :| 0 <= i < |args| && FormPair(args[i]).0 == key;
      LastForFound(kvs, key, i);
    }
  }

  /** The `forEach` that fills `formData` (main.ts:577-589). */
  method ParseFormArgs(args: seq<string>) returns (formData: JsMap<string, string>)
    ensures formData == Form(args)
  {
    formData := Empty();
    ghost var kvs := FormPairs(args);
    var i := 0;
    while i < |args|
      invariant 0 <= i <= |args|
      invariant formData == SetAll(Empty(), kvs[..i])
    {
      SetAllStep(Empty(), kvs, i);
      var splitted := Split(args[i], "=");
      var key := splitted[0];
      splitted := splitted[1..];
      var value := Join(splitted, "=");
      formData := formData.Set(Trim(key), value);
      i := i + 1;
    }
    assert kvs[..i] == kvs;
  }

  // ---------------------------------------------------------------------------
  // `do <kind> ...`

  /** The action `doAction` returns. */
  datatype Action =
    | ScanActions             // 'list': `ts.scanActions(x)`
    | PutAction(what: Option<string>)  // 'put': `ts.putAction(what, x)`
    | EmptyObject             // any other kind: `{}`

  /** What applying the action to one argument asks for. */
  datatype Effect = Scan(x: string) | Put(what: Option<string>, x: string) | NoEffect

  function Apply(action: Action, x: string): Effect {
    match action
    case ScanActions => Scan(x)
    case PutAction(what) => Put(what, x)
    case EmptyObject => NoEffect
  }

  /** `xs[0]`, undefined for an empty list. */
  function Head(xs: seq<string>): Option<string> {
    if xs == [] then None else Some(xs[0])
  }

  /** What `xs.shift()` and `xs.splice(0, 1)` leave of a list. */
  function Tail(xs: seq<string>): seq<string> {
    if xs == [] then [] else xs[1..]
  }

  /** The parsed command-line options the rewriting steps reassign. */
  class CommandOptions {
    /** `options.command`: the positional words. */
    var command: seq<string>
    var ordered: Option<bool>
    const unordered: bool
    const json: bool

    constructor(command: seq<string>, ordered: Option<bool>, unordered: bool, json: bool)
      ensures this.command == command && this.ordered == ordered
      ensures this.unordered == unordered && this.json == json
    {
      this.command := command;
      this.ordered := ordered;
      this.unordered := unordered;
      this.json := json;
    }

    /** main.ts:40-47: the two assignments that settle `options.ordered`. */
    method DefaultOrdered()
      modifies this
      ensures ordered == Some(DefaultedOrdered(old(ordered), unordered, json))
      ensures command == old(command)
    {
      if unordered {
        ordered := Some(false);
      }
      if ordered.None? {
        ordered := Some(!json);
      }
    }

    /** main.ts:148-161: a shorthand at the head of the command is replaced by its expansion. */
    method ExpandShorthand(builtin: Shorthands, user: Shorthands)
      modifies this
      ensures command == Expanded(old(command), MergedShorthands(builtin, user))
      ensures ordered == old(ordered)
    {
      if |command| >= 1 {
        var shorties := builtin + user;
        var cmd0 := Trim(command[0]);
        if cmd0 in shorties {
          var additionalOptions := command[1..];
          command := shorties[cmd0] + additionalOptions;
        }
      }
    }

    /** main.ts:165-167: the first word is taken out as the command. */
    method TakeCommand() returns (cmd: Option<string>)
      modifies this
      ensures cmd == Head(old(command)) && command == Tail(old(command))
      ensures ordered == old(ordered)
    {
      cmd := Head(command);
      command := Tail(command);
    }

    /**
     * `doAction(what, options.command)` (main.ts:125-146): 'put' takes the
     * first of the remaining words as its target, out of the very list the
     * caller goes on to use; any kind but 'list' and 'put' gives `{}`.
     */
    method DoAction(what: Option<string>) returns (action: Action)
      modifies this
      ensures what == Some("list") ==> action == ScanActions && command == old(command)
      ensures what == Some("put") ==> action == PutAction(Head(old(command))) && command == Tail(old(command))
      ensures what != Some("list") && what != Some("put") ==> action == EmptyObject && command == old(command)
      ensures ordered == old(ordered)
    {
      if what == Some("list") {
        action := ScanActions;
      } else if what == Some("put") {
        var target := Head(command);
        command := Tail(command);
        action := PutAction(target);
      } else {
        action := EmptyObject;
      }
    }

    /**
     * The `do` command (main.ts:689-697): the kind is the next word, the
     * action is chosen for it, and it is applied to each word left.
     */
    method RunDo() returns (kind: Option<string>, effects: seq<Effect>)
      modifies this
      ensures kind == Head(old(command))
      ensures var rest := Tail(old(command));
              && (kind == Some("put") ==> command == Tail(rest))
              && (kind != Some("put") ==> command == rest)
      ensures |effects| == |command|
      ensures forall i :: 0 <= i < |command| ==>
                effects[i] == if kind == Some("put") then Put(Head(Tail(old(command))), command[i])
                              else if kind == Some("list") then Scan(command[i])
                              else NoEffect
      ensures ordered == old(ordered)
    {
      kind := Head(command);
      command := Tail(command);
      var action := DoAction(kind);
      var args := command;
      effects := [];
      var i := 0;
      while i < |args|
        invariant 0 <= i <= |args|
        invariant |effects| == i
        invariant forall j :: 0 <= j < i ==> effects[j] == Apply(action, args[j])
      {
        effects := effects + [Apply(action, args[i])];
        i := i + 1;
      }
    }
  }
}
