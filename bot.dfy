/** The request and response shaping of `AbstractBot` and `AbstractBasicBot`
    (`ibots/base.py`): the variable check and renaming of `api_call`, the keyword
    arguments the five primitives `_node`, `_list`, `_create`, `_update` and `_delete`
    inject or forbid, and the dispatch by method-name suffix in `load_gql`. */
module Base {
  import opened Errors
  import opened Json
  import opened Utils
  import opened Collapse

  /** `AbstractBasicBot.FIRST`: the page size a list query asks for unless told otherwise. */
  const FIRST: int := 25

  /** A GraphQL operation, reduced to its name and the names of the variables it
      declares (as written in the query text, in camel case). */
  datatype Operation = Operation(name: string, declared: seq<string>)

  /** One request handed to the GraphQL client: the operation and its variable values. */
  datatype Call = Call(operation: Operation, values: Dict)

  datatype Level = Debug | Info | Error

  datatype Record = Record(level: Level, message: string)

  // ---------------------------------------------------------------------------
  // api_call: the variable check and the renaming

  /** The snake-case forms of the declared variable names. */
  function SnakeNames(declared: seq<string>): seq<string>
  {
    seq(|declared|, i requires 0 <= i < |declared| => SnakeCase(declared[i]))
  }

  /** `x in set(snake_case(y) for y in declared)` */
  predicate Supported(declared: seq<string>, x: string)
  {
    x in SnakeNames(declared)
  }

  /** The first caller variable that no declared variable names in snake case. */
  function Unsupported(declared: seq<string>, variables: Dict): (r: Option<string>)
    ensures r.None? <==> forall i | 0 <= i < |variables| :: Supported(declared, variables[i].key)
    ensures r.Some? ==> HasKey(variables, r.value) && !Supported(declared, r.value)
  {
    if variables == [] then None
    else if !Supported(declared, variables[0].key) then Some(variables[0].key)
    else
      var r := Unsupported(declared, variables[1..]);
      assert forall j | 1 <= j < |variables| :: variables[1..][j - 1] == variables[j];
      assert Keys(variables[1..]) == Keys(variables)[1..];
      r
  }

  /** The check stops at the first unsupported variable. */
  lemma {:induction false} UnsupportedAt(declared: seq<string>, variables: Dict, i: nat)
    requires i < |variables| && !Supported(declared, variables[i].key)
    requires forall j | 0 <= j < i :: Supported(declared, variables[j].key)
    ensures Unsupported(declared, variables) == Some(variables[i].key)
  {
    if i > 0 {
      assert variables[1..][i - 1] == variables[i];
      UnsupportedAt(declared, variables[1..], i - 1);
    }
  }

  /** The loop of `api_call` over the caller's variables: the position of the first
      one that is not supported, or the number of variables when all are. */
  method FirstUnsupported(declared: seq<string>, variables: Dict) returns (i: nat)
    ensures i <= |variables|
    ensures i == |variables| <==> Unsupported(declared, variables).None?
    ensures i < |variables| ==> Unsupported(declared, variables) == Some(variables[i].key)
  {
    i := 0;
    while i < |variables| && Supported(declared, variables[i].key)
      invariant 0 <= i <= |variables|
      invariant forall j | 0 <= j < i :: Supported(declared, variables[j].key)
    {
      i := i + 1;
    }
    if i < |variables| {
      UnsupportedAt(declared, variables, i);
    }
  }

  /** `{mixed_case(x): variables[x] for x in variables}`: the values as the client sends them. */
  function Rename(variables: Dict): Dict
  {
    Rekey(variables, MixedCase)
  }

  function UnsupportedMessage(x: string, op: Operation): string
  {
    "Variable \"" + x + "\" not supported in " + op.name
  }

  /** When every caller variable passes the check and the operation declares camel-case
      names, each value is sent unchanged, in the caller's order, under the declared name
      it was checked against. */
  lemma RenameSendsDeclared(declared: seq<string>, variables: Dict)
    requires forall y | y in declared :: CamelName(y)
    requires UniqueKeys(variables) && Unsupported(declared, variables).None?
    ensures |Rename(variables)| == |variables|
    ensures forall i | 0 <= i < |variables| ::
      && Rename(variables)[i] == Field(MixedCase(variables[i].key), variables[i].value)
      && MixedCase(variables[i].key) in declared
      && SnakeCase(MixedCase(variables[i].key)) == variables[i].key
  {
    forall i | 0 <= i < |variables|
      ensures MixedCase(variables[i].key) in declared
      ensures SnakeCase(MixedCase(variables[i].key)) == variables[i].key
    {
      assert Supported(declared, variables[i].key);
      var j :| 0 <= j < |declared| && SnakeNames(declared)[j] == variables[i].key;
      MixedSnakeRoundTrip(declared[j]);
    }
    RekeyInjective(variables, MixedCase);
  }

  /** Outside camel case the renaming does not restore the declared name: a declared
      `aB2c` accepts the variable `a_b2c`, which is then sent as `aB2C` (`title` capitalises
      a letter after a digit); a declared `Id` accepts `id`, which is sent as `id`; and a
      declared `a_b` accepts `a_b`, which is sent as `aB`. */
  lemma RenameNotCamel()
    ensures Supported(["aB2c"], "a_b2c") && MixedCase("a_b2c") == "aB2C"
    ensures Supported(["Id"], "id") && MixedCase("id") == "id"
    ensures Supported(["a_b"], "a_b") && MixedCase("a_b") == "aB"
  {
    DigitCase();
    CapitalCase();
    UnderscoreCase();
  }

  lemma DigitCase()
    ensures Supported(["aB2c"], "a_b2c") && MixedCase("a_b2c") == "aB2C"
  {
    SnakeCaseDigit();
    assert SnakeNames(["aB2c"])[0] == "a_b2c";
    MixedCaseDigit();
  }

  lemma CapitalCase()
    ensures Supported(["Id"], "id") && MixedCase("id") == "id"
  {
    SnakeCaseCapital();
    assert SnakeNames(["Id"])[0] == "id";
    SplitNoSeparator("id");
  }

  lemma UnderscoreCase()
    ensures Supported(["a_b"], "a_b") && MixedCase("a_b") == "aB"
  {
    assert NoUpper("a_b");
    SnakeCaseIdentity("a_b");
    assert SnakeNames(["a_b"])[0] == "a_b";
    assert "a_b" == "a" + "_" + "b";
    SplitAt("a", "b");
    SplitNoSeparator("a");
    SplitNoSeparator("b");
    assert Split("a_b") == ["a", "b"];
    assert TitleAll(["b"]) == "B";
  }

  lemma SnakeCaseDigit()
    ensures SnakeCase("aB2c") == "a_b2c"
  {
    assert MarkWords("aB2c") == "a_B2c" by {
      assert MarkTail("c") == "c";
      assert MarkTail("2c") == "2c";
      assert MarkTail("B2c") == "_B2c";
    }
    assert LowerAll("a_B2c") == "a_b2c" by {
      LowerAllDigit();
    }
  }

  lemma LowerAllDigit()
    ensures LowerAll("a_B2c") == "a_b2c"
  {
    assert LowerAll("c") == "c";
    assert LowerAll("2c") == "2c";
    assert LowerAll("B2c") == "b2c";
    assert LowerAll("_B2c") == "_b2c";
  }

  lemma MixedCaseDigit()
    ensures MixedCase("a_b2c") == "aB2C"
  {
    assert "a_b2c" == "a" + "_" + "b2c";
    SplitAt("a", "b2c");
    SplitNoSeparator("a");
    SplitNoSeparator("b2c");
    assert Split("a_b2c") == ["a", "b2c"];
    assert TitleFrom("c", false) == "C";
    assert TitleFrom("2c", true) == "2C";
    assert TitleFrom("b2c", false) == "B2C";
    assert TitleAll(["b2c"]) == "B2C";
  }

  lemma SnakeCaseCapital()
    ensures SnakeCase("Id") == "id"
  {
    assert MarkTail("d") == "d";
    assert MarkWords("Id") == "Id";
    assert LowerAll("d") == "d";
    assert LowerAll("Id") == "id";
  }

  // ---------------------------------------------------------------------------
  // The primitives and their keyword arguments

  datatype Primitive = NodeQuery | ListQuery | CreateMutation | UpdateMutation | DeleteMutation

  /** The name-suffix that selects the primitive. */
  function PrimitiveSuffix(p: Primitive): string
  {
    match p
    case NodeQuery => "node"
    case ListQuery => "list"
    case CreateMutation => "create"
    case UpdateMutation => "update"
    case DeleteMutation => "delete"
  }

  /** `getattr(AbstractBasicBot, attribute)` among the five primitives. */
  function Attribute(attribute: string): (r: Option<Primitive>)
    ensures r.Some? ==> attribute == "_" + PrimitiveSuffix(r.value)
  {
    if attribute == "_node" then Some(NodeQuery)
    else if attribute == "_list" then Some(ListQuery)
    else if attribute == "_create" then Some(CreateMutation)
    else if attribute == "_update" then Some(UpdateMutation)
    else if attribute == "_delete" then Some(DeleteMutation)
    else None
  }

  /** `_list`: `first` is set to `FIRST` when the caller did not give it. */
  function ListVariables(kwargs: Dict): Dict
  {
    if HasKey(kwargs, "first") then kwargs else Put(kwargs, "first", Int(FIRST))
  }

  /** The keyword arguments a primitive passes to `api_call`, or the assertion it fails;
      `user` is the bot's own id. */
  function Prepare(p: Primitive, kwargs: Dict, user: string): Result<Dict>
  {
    match p
    case NodeQuery => Ok(kwargs)
    case ListQuery => Ok(ListVariables(kwargs))
    case UpdateMutation =>
      if !HasKey(kwargs, "id") || HasKey(kwargs, "user") then Err(AssertionError) else Ok(kwargs)
    case _ =>
      if HasKey(kwargs, "user") then Err(AssertionError) else Ok(Put(kwargs, "user", Str(user)))
  }

  /** What a primitive makes of `api_call`'s result: queries return it, mutations return
      its first item. `utils.first_item` is called at its default depth 1, where the
      corrected `FirstItemAt` equals the code as written (`FirstItemAtDepth`). */
  function Finish(p: Primitive, raw: Result<Json>): Result<Json>
  {
    match raw
    case Err(e) => Err(e)
    case Ok(v) => if p == NodeQuery || p == ListQuery then Ok(v) else FirstItemAt(v, 1)
  }

  /** The keywords no primitive accepts: `self` and `op` are already bound by position. */
  predicate Reserved(kwargs: Dict)
  {
    HasKey(kwargs, "self") || HasKey(kwargs, "op")
  }

  /** `_node` passes its arguments through untouched. */
  lemma NodeArguments(kwargs: Dict, user: string)
    ensures Prepare(NodeQuery, kwargs, user) == Ok(kwargs)
  {
  }

  /** `_list` always sends a `first`: the caller's when given, `FIRST` otherwise, and
      leaves every other argument as it was. */
  lemma ListArguments(kwargs: Dict, user: string)
    ensures Prepare(ListQuery, kwargs, user).Ok?
    ensures var v := Prepare(ListQuery, kwargs, user).value;
      && HasKey(v, "first")
      && Get(v, "first") == (if HasKey(kwargs, "first") then Get(kwargs, "first") else Int(FIRST))
      && (forall k | k != "first" :: HasKey(v, k) == HasKey(kwargs, k))
      && (forall k | k != "first" && HasKey(kwargs, k) :: Get(v, k) == Get(kwargs, k))
      && (HasKey(kwargs, "first") ==> v == kwargs)
      && (!HasKey(kwargs, "first") ==> v == kwargs + [Field("first", Int(FIRST))])
  {
    if !HasKey(kwargs, "first") {
      PutAbsent(kwargs, "first", Int(FIRST));
      forall k | k != "first" ensures HasKey(ListVariables(kwargs), k) == HasKey(kwargs, k)
        ensures HasKey(kwargs, k) ==> Get(ListVariables(kwargs), k) == Get(kwargs, k)
      {
        PutOther(kwargs, "first", Int(FIRST), k);
      }
    }
  }

  /** `_create` and `_delete` refuse a caller-supplied `user` and add the bot's own id
      as `user`, after all the caller's arguments. */
  lemma UserArguments(p: Primitive, kwargs: Dict, user: string)
    requires p == CreateMutation || p == DeleteMutation
    ensures Prepare(p, kwargs, user).Err? <==> HasKey(kwargs, "user")
    ensures Prepare(p, kwargs, user).Err? ==> Prepare(p, kwargs, user).error == AssertionError
    ensures Prepare(p, kwargs, user).Ok? ==>
      var v := Prepare(p, kwargs, user).value;
      && v == kwargs + [Field("user", Str(user))]
      && Get(v, "user") == Str(user)
      && forall k | k != "user" && HasKey(kwargs, k) :: HasKey(v, k) && Get(v, k) == Get(kwargs, k)
  {
    if !HasKey(kwargs, "user") {
      PutAbsent(kwargs, "user", Str(user));
      forall k | k != "user" && HasKey(kwargs, k)
        ensures HasKey(Put(kwargs, "user", Str(user)), k)
        ensures Get(Put(kwargs, "user", Str(user)), k) == Get(kwargs, k)
      {
        PutOther(kwargs, "user", Str(user), k);
      }
    }
  }

  /** `_update` demands an `id`, refuses a `user` and adds nothing. */
  lemma UpdateArguments(kwargs: Dict, user: string)
    ensures Prepare(UpdateMutation, kwargs, user).Ok? <==> HasKey(kwargs, "id") && !HasKey(kwargs, "user")
    ensures Prepare(UpdateMutation, kwargs, user).Ok? ==> Prepare(UpdateMutation, kwargs, user).value == kwargs
    ensures Prepare(UpdateMutation, kwargs, user).Err? ==> Prepare(UpdateMutation, kwargs, user).error == AssertionError
  {
  }

  /** An operation used as a list query that does not declare `first` can never be
      called: `_list` always adds that variable and `api_call` then rejects it. */
  lemma ListNeedsFirst(declared: seq<string>, kwargs: Dict, user: string)
    requires !Supported(declared, "first")
    ensures Prepare(ListQuery, kwargs, user).Ok?
    ensures Unsupported(declared, Prepare(ListQuery, kwargs, user).value).Some?
  {
    ListArguments(kwargs, user);
  }

  /** Likewise a create or delete operation that does not declare `user`. */
  lemma MutationNeedsUser(p: Primitive, declared: seq<string>, kwargs: Dict, user: string)
    requires p == CreateMutation || p == DeleteMutation
    requires !Supported(declared, "user") && !HasKey(kwargs, "user")
    ensures Prepare(p, kwargs, user).Ok?
    ensures Unsupported(declared, Prepare(p, kwargs, user).value).Some?
  {
    UserArguments(p, kwargs, user);
    var v := Prepare(p, kwargs, user).value;
    assert v[|v| - 1].key == "user";
  }

  // ---------------------------------------------------------------------------
  // load_gql: the suffix of the method name

  /** `name.split('_')[-1]` */
  function Suffix(name: string): string
  {
    var parts := Split(name);
    parts[|parts| - 1]
  }

  /** The suffix is what follows the last underscore. */
  lemma SuffixAfter(prefix: string, s: string)
    requires '_' !in s
    ensures Suffix(prefix + "_" + s) == s
    ensures Suffix(s) == s
  {
    SplitAt(prefix, s);
    SplitNoSeparator(s);
  }

  lemma {:induction false} JoinLast(parts: seq<string>)
    requires |parts| >= 2
    ensures Join(parts) == Join(parts[..|parts| - 1]) + "_" + parts[|parts| - 1]
  {
    if |parts| > 2 {
      JoinLast(parts[1..]);
      assert parts[1..][..|parts| - 2] == parts[..|parts| - 1][1..];
    }
  }

  /** The suffix contains no underscore and ends the name, directly after an underscore
      unless it is the whole name. */
  lemma SuffixShape(name: string)
    ensures '_' !in Suffix(name)
    ensures |Suffix(name)| <= |name| && name[|name| - |Suffix(name)|..] == Suffix(name)
    ensures |Suffix(name)| < |name| ==> name[|name| - |Suffix(name)| - 1] == '_'
  {
    var parts := Split(name);
    SplitParts(name);
    JoinSplit(name);
    if |parts| >= 2 {
      JoinLast(parts);
      var front := Join(parts[..|parts| - 1]);
      assert name == front + "_" + Suffix(name);
      assert name[|name| - |Suffix(name)|..] == Suffix(name);
    }
  }

  /** The level at which `load_gql` announces a call. */
  function CallLevel(name: string): Level
  {
    if Suffix(name) == "create" then Info else Debug
  }

  function CallingMessage(name: string): string
  {
    "Calling \"" + name + "\""
  }

  /** Calls are announced at info level exactly for the `create` methods. */
  lemma InfoOnlyForCreate(name: string)
    ensures CallLevel(name) == Info <==>
      name == "create" || (|name| >= 7 && name[|name| - 7..] == "_create")
  {
    SuffixShape(name);
    if name == "create" {
      SuffixAfter("", "create");
    } else if |name| >= 7 && name[|name| - 7..] == "_create" {
      var prefix := name[..|name| - 7];
      assert name == prefix + "_" + "create";
      SuffixAfter(prefix, "create");
    }
  }

  /** A method named `<anything>_<suffix>` runs the primitive of that suffix. */
  lemma DispatchBySuffix(prefix: string, p: Primitive)
    ensures Attribute("_" + Suffix(prefix + "_" + PrimitiveSuffix(p))) == Some(p)
  {
    var s := PrimitiveSuffix(p);
    assert '_' !in s && Attribute("_" + s) == Some(p) by {
      match p
      case NodeQuery => assert "_" + s == "_node";
      case ListQuery => assert "_" + s == "_list";
      case CreateMutation => assert "_" + s == "_create";
      case UpdateMutation => assert "_" + s == "_update";
      case DeleteMutation => assert "_" + s == "_delete";
    }
    SuffixAfter(prefix, s);
  }

  // ---------------------------------------------------------------------------
  // The bot

  class Bot {
    /** `self.id`: the account id the login returned. */
    const id: string
    /** The operation catalogue `OPS`, by method name. */
    const ops: map<string, Operation>
    /** The GraphQL endpoint: what it answers to an operation and its variable values. */
    const transport: (Operation, Dict) -> Json
    /** Every request sent to the endpoint so far. */
    var calls: seq<Call>
    /** Every record logged so far. */
    var log: seq<Record>

    /** A bot that has logged in as `id`; login itself refuses an empty id. */
    constructor (id: string, ops: map<string, Operation>, transport: (Operation, Dict) -> Json)
      requires id != ""
      ensures this.id == id && this.ops == ops && this.transport == transport
      ensures calls == [] && log == []
    {
      this.id := id;
      this.ops := ops;
      this.transport := transport;
      calls := [];
      log := [];
    }

    /** What `api_call` returns. */
    function ApiResult(op: Operation, variables: Dict): Result<Json>
    {
      if Unsupported(op.declared, variables).Some? then Err(StopBot)
      else Ok(transport(op, Rename(variables)))
    }

    /** How `api_call` extends the request and log histories `calls0` and `log0`. */
    predicate ApiEffect(op: Operation, variables: Dict, calls0: seq<Call>, log0: seq<Record>)
      reads this
    {
      match Unsupported(op.declared, variables)
      case Some(x) => calls == calls0 && log == log0 + [Record(Error, UnsupportedMessage(x, op))]
      case None => calls == calls0 + [Call(op, Rename(variables))] && log == log0
    }

    /** `api_call(op, variables)`: an unsupported variable is logged and stops the bot
        before anything is sent; otherwise the renamed variables go to the endpoint. */
    method ApiCall(op: Operation, variables: Dict) returns (r: Result<Json>)
      modifies this
      ensures r == ApiResult(op, variables)
      ensures ApiEffect(op, variables, old(calls), old(log))
    {
      if |variables| > 0 {
        var i := FirstUnsupported(op.declared, variables);
        if i < |variables| {
          var x := variables[i].key;
          log := log + [Record(Error, UnsupportedMessage(x, op))];
          return Err(StopBot);
        }
      }
      var values := Rename(variables);
      calls := calls + [Call(op, values)];
      r := Ok(transport(op, values));
    }

    /** What primitive `p` returns for `op` and the caller's keyword arguments. */
    function Outcome(p: Primitive, op: Operation, kwargs: Dict): Result<Json>
    {
      match Prepare(p, kwargs, id)
      case Err(e) => Err(e)
      case Ok(v) => Finish(p, ApiResult(op, v))
    }

    /** How primitive `p` extends the histories: a failed assertion changes nothing. */
    predicate Effect(p: Primitive, op: Operation, kwargs: Dict, calls0: seq<Call>, log0: seq<Record>)
      reads this
    {
      match Prepare(p, kwargs, id)
      case Err(_) => calls == calls0 && log == log0
      case Ok(v) => ApiEffect(op, v, calls0, log0)
    }

    /** `_node(op, **kwargs)` */
    method Node(op: Operation, kwargs: Dict) returns (r: Result<Json>)
      modifies this
      ensures r == Outcome(NodeQuery, op, kwargs)
      ensures Effect(NodeQuery, op, kwargs, old(calls), old(log))
    {
      r := ApiCall(op, kwargs);
    }

    /** `_list(op, **kwargs)` */
    method List(op: Operation, kwargs: Dict) returns (r: Result<Json>)
      modifies this
      ensures r == Outcome(ListQuery, op, kwargs)
      ensures Effect(ListQuery, op, kwargs, old(calls), old(log))
    {
      var args := kwargs;
      if !HasKey(args, "first") {
        args := Put(args, "first", Int(FIRST));
      }
      r := ApiCall(op, args);
    }

    /** `_create(op, **kwargs)` */
    method Create(op: Operation, kwargs: Dict) returns (r: Result<Json>)
      modifies this
      ensures r == Outcome(CreateMutation, op, kwargs)
      ensures Effect(CreateMutation, op, kwargs, old(calls), old(log))
    {
      if HasKey(kwargs, "user") {
        return Err(AssertionError);
      }
      var args := Put(kwargs, "user", Str(id));
      var raw := ApiCall(op, args);
      r := Finish(CreateMutation, raw);
    }

    /** `_update(op, **kwargs)` */
    method Update(op: Operation, kwargs: Dict) returns (r: Result<Json>)
      modifies this
      ensures r == Outcome(UpdateMutation, op, kwargs)
      ensures Effect(UpdateMutation, op, kwargs, old(calls), old(log))
    {
      if !HasKey(kwargs, "id") || HasKey(kwargs, "user") {
        return Err(AssertionError);
      }
      var raw := ApiCall(op, kwargs);
      r := Finish(UpdateMutation, raw);
    }

    /** `_delete(op, **kwargs)` */
    method Delete(op: Operation, kwargs: Dict) returns (r: Result<Json>)
      modifies this
      ensures r == Outcome(DeleteMutation, op, kwargs)
      ensures Effect(DeleteMutation, op, kwargs, old(calls), old(log))
    {
      if HasKey(kwargs, "user") {
        return Err(AssertionError);
      }
      var args := Put(kwargs, "user", Str(id));
      var raw := ApiCall(op, args);
      r := Finish(DeleteMutation, raw);
    }

    /** What calling the `load_gql` method `name` returns. Python looks up the
        primitive first (AttributeError), then the operation (KeyError), and only then
        binds the arguments (TypeError): `_status` takes no operation, and a primitive's
        own parameters `self` and `op` cannot also be given as keywords. */
    function InvokeOutcome(name: string, kwargs: Dict): Result<Json>
    {
      var suffix := Suffix(name);
      var primitive := Attribute("_" + suffix);
      if primitive.None? && suffix != "status" then Err(AttributeError)
      else if name !in ops then Err(KeyError)
      else if primitive.None? || Reserved(kwargs) then Err(TypeError)
      else match Outcome(primitive.value, ops[name], kwargs)
           case Err(e) => Err(e)
           case Ok(v) => CollapseConnections(v)
    }

    /** How calling the `load_gql` method `name` extends the histories: the call is
        always announced first, and only a primitive that is entered can send anything. */
    predicate InvokeEffect(name: string, kwargs: Dict, calls0: seq<Call>, log0: seq<Record>)
      reads this
    {
      var log1 := log0 + [Record(CallLevel(name), CallingMessage(name))];
      var primitive := Attribute("_" + Suffix(name));
      if primitive.Some? && name in ops && !Reserved(kwargs) then
        Effect(primitive.value, ops[name], kwargs, calls0, log1)
      else
        calls == calls0 && log == log1
    }

    /** `self.<name>(**kwargs)` for a method decorated with `load_gql`: announce the
        call, run the primitive named by the suffix on the operation of that name, and
        collapse the result. */
    method Invoke(name: string, kwargs: Dict) returns (r: Result<Json>)
      modifies this
      ensures r == InvokeOutcome(name, kwargs)
      ensures InvokeEffect(name, kwargs, old(calls), old(log))
    {
      log := log + [Record(CallLevel(name), CallingMessage(name))];
      var suffix := Suffix(name);
      var primitive := Attribute("_" + suffix);
      // `'_' + suffix` never contains a second underscore, and among such attributes
      // `_status` is the only one besides the five primitives
      if primitive.None? && suffix != "status" {
        return Err(AttributeError);
      }
      if name !in ops {
        return Err(KeyError);
      }
      if primitive.None? || Reserved(kwargs) {
        return Err(TypeError);
      }
      var op := ops[name];
      var raw: Result<Json>;
      match primitive.value {
        case NodeQuery => raw := Node(op, kwargs);
        case ListQuery => raw := List(op, kwargs);
        case CreateMutation => raw := Create(op, kwargs);
        case UpdateMutation => raw := Update(op, kwargs);
        case DeleteMutation => raw := Delete(op, kwargs);
      }
      if raw.Err? {
        return Err(raw.error);
      }
      r := CollapseConnections(raw.value);
    }
  }

  // ---------------------------------------------------------------------------
  // Properties of the bot's calls

  /** A rejected variable stops the call before anything reaches the endpoint, for
      every primitive. */
  lemma RejectedBeforeSending(b: Bot, p: Primitive, op: Operation, kwargs: Dict)
    ensures Prepare(p, kwargs, b.id).Ok? && Unsupported(op.declared, Prepare(p, kwargs, b.id).value).Some?
      ==> b.Outcome(p, op, kwargs) == Err(StopBot)
  {
  }

  /** With the variables accepted, a query returns the endpoint's answer to the renamed
      variables, and a mutation its first item. */
  lemma AcceptedIsSent(b: Bot, p: Primitive, op: Operation, kwargs: Dict)
    ensures Prepare(p, kwargs, b.id).Ok? && Unsupported(op.declared, Prepare(p, kwargs, b.id).value).None? ==>
      var answer := b.transport(op, Rename(Prepare(p, kwargs, b.id).value));
      b.Outcome(p, op, kwargs) == if p == NodeQuery || p == ListQuery then Ok(answer) else FirstItemAt(answer, 1)
  {
  }

  /** A catalogued method named `<prefix>_<suffix>` runs that suffix's primitive on its
      own operation, and its result is then collapsed. */
  lemma InvokeRunsPrimitive(b: Bot, prefix: string, p: Primitive, kwargs: Dict)
    requires prefix + "_" + PrimitiveSuffix(p) in b.ops && !Reserved(kwargs)
    ensures var name := prefix + "_" + PrimitiveSuffix(p);
      b.InvokeOutcome(name, kwargs) ==
        match b.Outcome(p, b.ops[name], kwargs)
        case Err(e) => Err(e)
        case Ok(v) => CollapseConnections(v)
  {
    DispatchBySuffix(prefix, p);
  }

  /** A method named `<prefix>_status` reaches `_status`, which takes no operation:
      it fails with KeyError when the catalogue lacks the name, and with TypeError
      otherwise. */
  lemma InvokeStatus(b: Bot, prefix: string, kwargs: Dict)
    ensures var name := prefix + "_status";
      b.InvokeOutcome(name, kwargs) == Err(if name in b.ops then TypeError else KeyError)
  {
    var name := prefix + "_status";
    assert name == prefix + "_" + "status";
    SuffixAfter(prefix, "status");
    assert Attribute("_" + Suffix(name)).None? by {
      assert "_" + Suffix(name) == "_status";
    }
  }

  /** A keyword named `self` or `op` never reaches the endpoint: once the primitive and
      the operation are found, binding the arguments fails with TypeError. */
  lemma InvokeReserved(b: Bot, name: string, kwargs: Dict)
    requires Reserved(kwargs)
    ensures b.InvokeOutcome(name, kwargs).Err?
    ensures name in b.ops && Attribute("_" + Suffix(name)).Some? ==>
      b.InvokeOutcome(name, kwargs) == Err(TypeError)
  {
  }

  /** A call that succeeds was catalogued, named a primitive, passed the primitive's
      own assertions, and every argument it sent passed the variable check. */
  lemma InvokeSucceeded(b: Bot, name: string, kwargs: Dict)
    ensures b.InvokeOutcome(name, kwargs).Ok? ==>
      && name in b.ops && Attribute("_" + Suffix(name)).Some? && !Reserved(kwargs)
      && var p := Attribute("_" + Suffix(name)).value;
         && Prepare(p, kwargs, b.id).Ok?
         && Unsupported(b.ops[name].declared, Prepare(p, kwargs, b.id).value).None?
  {
  }
}
