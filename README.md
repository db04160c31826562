# ibots request and response shaping, modelled in Dafny

`ibots` is a Python framework for bots that act on a GraphQL endpoint. A bot
subclasses `AbstractBasicBot`. Each of its query and mutation methods is an
empty stub decorated with `load_gql`, and the decorator picks one of five
primitives by the last underscore-separated word of the method name.

A call then runs these steps:

- The primitive fills in or checks some keyword arguments: `first` for lists,
  `user` for creations and deletions, `id` for updates.
- `api_call` refuses any variable that the operation does not declare. It
  renames the accepted variables from snake case to mixed case and sends them.
- `_collapse_connections` flattens GraphQL connections (`edges`/`node`),
  puts every key into snake case and returns the single top-level item.

This project models that pipeline and proves what it guarantees.

The modules, each in its own file:

- `Errors` (`errors.dfy`): the exceptions the pipeline raises, plus `Result` and `Option`.
- `Json` (`json.dfy`): JSON values. Dicts are insertion-ordered lists of entries, like
  Python's `dict`. The module covers `d[k] = v` (`Put`) and the renaming dict
  comprehension `{f(x): d[x] for x in d}` (`Rekey`).
- `Utils` (`utils.dfy`): `snake_case`, `mixed_case` and `first_item`, plus the string
  order `sorted` uses.
- `Collapse` (`collapse.dfy`): `_recurse` and `_collapse_connections`.
- `Base` (`bot.dfy`), which holds:
  - the `FIRST` page size
  - the variable check and renaming of `api_call`
  - the argument rules of `_node`, `_list`, `_create`, `_update` and `_delete`
  - the suffix dispatch and log level of `load_gql`
  - the class `Bot`. Its `calls` field records every request sent to the
    endpoint. Its `log` field records every record logged.

The GraphQL endpoint is the bot's `transport` field: a function from an
operation and its variable values to the JSON answer. An operation is its name
plus the names of the variables it declares. Each method of `Bot` is proved
against a function of the class: `ApiResult`, `Outcome` or `InvokeOutcome`.
The method's effect on `calls` and `log` is proved against `ApiEffect`,
`Effect` or `InvokeEffect`.

## Model

| member | source | states |
|---|---|---|
| Utils.MarkWords | ibots/utils.py:23 | the substitution `re.sub(r'(?<!^)(?=[A-Z])', '_', x)`; `SnakeCaseLength`, `SnakeCaseUnderscores` and `SnakeCaseIdentity` state what it adds |
| Utils.MarkTail | ibots/utils.py:23 | the same substitution past the first character; `MarkTailLength`, `MarkTailUnderscores` and `MarkTailIdentity` carry it into the lemmas above |
| Utils.LowerAll | ibots/utils.py:23 | `.lower()` on ASCII: the length is kept; `LowerAllNoUpper` and `LowerAllIdentity` give the `SnakeCase` ensures and `SnakeCaseIdentity` |
| Utils.SnakeCase | ibots/utils.py:22-23 | the result contains no upper-case letter |
| Utils.SnakeCaseLength | ibots/utils.py:22-23 | the result is longer than the input by the number of upper-case letters after the first character |
| Utils.SnakeCaseUnderscores | ibots/utils.py:22-23 | every added character is an underscore |
| Utils.SnakeCaseIdentity | ibots/utils.py:22-23 | a name without upper-case letters is returned unchanged |
| Utils.SnakeCaseIdempotent | ibots/utils.py:22-23 | applying snake_case twice is the same as applying it once |
| Utils.JoinSplit | ibots/utils.py:27 | joining the parts of `split('_')` with `_` gives back the string |
| Utils.SplitParts | ibots/utils.py:27 | `split('_')` gives one more part than there are underscores, and no part contains one |
| Utils.SplitAt | ibots/utils.py:27 | splitting `a + "_" + b` gives the parts of `a` followed by the parts of `b` |
| Utils.TitleWord | ibots/utils.py:27 | `title` on a word of letters capitalises its first letter and lower-cases the rest |
| Utils.MixedCaseNoUnderscore | ibots/utils.py:26-27 | the result never contains an underscore |
| Utils.MixedCaseIdentity | ibots/utils.py:26-27 | a name without underscores is returned unchanged |
| Utils.MixedCaseEmptyPart | ibots/utils.py:26-27 | a doubled underscore gives the same result as a single one |
| Utils.MixedCaseAt | ibots/utils.py:26-27 | after the first part is kept as it is, every later part is title-cased |
| Utils.MixedSnakeRoundTrip | ibots/utils.py:22-27 | `mixed_case(snake_case(x)) == x` for every camel-case name `x` |
| Utils.SnakeCaseInjective | ibots/utils.py:22-23 | two different camel-case names never have the same snake-case form |
| Utils.LeastKey | ibots/utils.py:31 | `sorted(keys)[0]` is one of the keys, and no key is below it in Python's string order |
| Utils.FirstItemLeast | ibots/utils.py:31 | at depth 1 the result is the value under the least key |
| Utils.FirstItemErrors | ibots/utils.py:30-32 | a value that is not a dict raises AttributeError, and an empty dict raises IndexError |
| Utils.FirstItemTwoLevels | ibots/utils.py:31-32 | for any depth other than 1 the code descends exactly two levels |
| Utils.FirstItemDepthIgnored | ibots/utils.py:30-32 | on a three-level dict, depth 3 returns the second-level dict where the corrected helper returns the third-level value |
| Utils.FirstItemAtDepth | ibots/utils.py:30-32 | the corrected helper descends one level per unit of depth, and matches the code at depth 1 |
| Utils.MixedCase | ibots/utils.py:26-27 | the definition of `mixed_case`; its contract is carried by `MixedCaseNoUnderscore`, `MixedCaseIdentity`, `MixedCaseEmptyPart`, `MixedCaseAt` and `MixedSnakeRoundTrip` |
| Utils.Split | ibots/utils.py:27 | the definition of `str.split('_')`; its contract is carried by `SplitParts`, `SplitAt` and `JoinSplit` |
| Utils.Join | ibots/utils.py:27 | the definition of `'_'.join`, independent of `Split`; `JoinSplit` proves it inverts `Split` |
| Utils.Title | ibots/utils.py:27 | the definition of `str.title` on ASCII; its contract is carried by `TitleWord` |
| Utils.LexLess | ibots/utils.py:31 | Python's `<` on strings, by code points; `LeastKey` relies on it being irreflexive, asymmetric, transitive and total |
| Utils.Len | ibots/base.py:1056 | `len(result)`: defined for lists, dicts and strings only; `CollapseRejects` states the TypeError and AssertionError it leads to |
| Utils.FirstItem | ibots/utils.py:30-32 | `first_item` as written; its contract is carried by `FirstItemLeast`, `FirstItemErrors`, `FirstItemTwoLevels` and `FirstItemDepthIgnored` |
| Utils.FirstItemAt | ibots/utils.py:30-32 | `first_item` with the depth passed on; its contract is carried by `FirstItemAtDepth` |
| Json.Keys | ibots/utils.py:31 | `x.keys()` in insertion order: one key per entry, at the same position; `LeastKey` and `FirstItemLeast` use it |
| Json.HasKey | ibots/base.py:1062-1065 | `k in d`; `EdgesWin`, `NodeUnwraps`, `Unsupported` and the argument lemmas use it |
| Json.Get | ibots/base.py:1063-1065 | `d[k]`, the value at the key's first position; `PutOther`, `RekeyLastWins` and `ListArguments` state how it changes |
| Json.Put | ibots/base.py:1025 | after `d[k] = v`: `k` is present with value `v`; the dict grows by one exactly when `k` was absent; keys stay unique |
| Json.PutOther | ibots/base.py:1025 | `d[k] = v` changes neither the presence nor the value of any other key |
| Json.PutKeys | ibots/base.py:1025 | `d[k] = v` adds `k` to the key set and nothing else |
| Json.Rekey | ibots/base.py:97-100 | the comprehension's result has unique keys and is no longer than the input; `RekeyHas`, `RekeyFrom`, `RekeyLastWins`, `RekeyInjective` and `RekeyKeys` state what it holds |
| Json.RekeyHas | ibots/base.py:97-100 | every renamed input key is present in the result |
| Json.RekeyFrom | ibots/base.py:97-100 | every entry of the result is some input entry under its renamed key |
| Json.RekeyLastWins | ibots/base.py:97-100 | when two keys are renamed alike, the later value is the one stored |
| Json.RekeyInjective | ibots/base.py:97-100 | when the renaming keeps keys apart, each entry is renamed in place and the order is kept |
| Json.RekeyKeys | ibots/base.py:1067 | the result's keys are exactly the renamed input keys |
| Collapse.Recurse | ibots/base.py:1058-1069 | the definition of `_recurse`; its contract is carried by `RecurseNormalized`, `RecurseScalarsAndLists`, `EdgesWin`, `NodeUnwraps`, `DictKeys`, `DictRenamed`, `ConnectionToList` and `RecurseIdempotent` |
| Collapse.CollapseValues | ibots/base.py:1067 | every value of the dict is collapsed under its own key, in order, proved by induction over the entries |
| Collapse.CollapseConnections | ibots/base.py:1044-1071 | the definition of `_collapse_connections`; its contract is carried by `CollapseSingle` and `CollapseRejects` |
| Collapse.RecurseNormalized | ibots/base.py:1058-1069 | for any input, every dict in the result, at every depth, has unique keys with no upper-case letters |
| Collapse.RecurseScalarsAndLists | ibots/base.py:1059-1069 | scalars are returned as they are, and lists are collapsed element by element, in order |
| Collapse.EdgesWin | ibots/base.py:1062-1063 | a dict with `edges` becomes the collapse of that value, and its other entries (even `node`) are ignored |
| Collapse.NodeUnwraps | ibots/base.py:1064-1065 | otherwise a dict with `node` becomes the collapse of that value |
| Collapse.DictKeys | ibots/base.py:1066-1067 | any other dict keeps exactly the snake-case forms of its keys |
| Collapse.DictRenamed | ibots/base.py:1066-1067 | when those forms are distinct, each entry is renamed and collapsed in place |
| Collapse.ConnectionToList | ibots/base.py:1058-1069 | a connection `{edges: [{node: n0}, ...]}` becomes the list of the collapsed nodes |
| Collapse.RecurseIdempotent | ibots/base.py:1058-1069 | collapsing a second time changes nothing if the first pass left no wrapper key |
| Collapse.RecurseNotIdempotent | ibots/base.py:1064-1067 | a key `Node` becomes the wrapper `node` on the first pass, so a second pass changes the result |
| Collapse.CollapseSingle | ibots/base.py:1056-1071 | a one-entry result that is not a wrapper collapses to the collapsed value of that entry |
| Collapse.CollapseRejects | ibots/base.py:1056 | a result without a length raises TypeError, and one whose length is not 1 fails the assertion |
| Base.Supported | ibots/base.py:86-89 | `x in set(snake_case(y) for y in declared)`; `Unsupported`, `FirstUnsupported` and `RenameSendsDeclared` use it |
| Base.UnsupportedMessage | ibots/base.py:90-92 | the error record, naming the variable and the operation; `ApiCall` logs it through `ApiEffect` |
| Base.Unsupported | ibots/base.py:85-93 | finds nothing exactly when every variable is some declared name in snake case; anything it finds is a given variable that is not |
| Base.UnsupportedAt | ibots/base.py:86-93 | the check reports the first undeclared variable in the caller's order |
| Base.FirstUnsupported | ibots/base.py:86-93 | the loop finds the position of the first undeclared variable, and runs to the end exactly when every variable is declared |
| Base.Rename | ibots/base.py:97-100 | the renaming `api_call` sends; its contract is carried by `RenameSendsDeclared` and the `Rekey` lemmas |
| Base.RenameSendsDeclared | ibots/base.py:85-100 | when every declared name is camel case (ASCII letters, the first one lower-case) and the check has passed, every value goes out unchanged and in order, under exactly the declared name it was checked against |
| Base.RenameNotCamel | ibots/base.py:85-100 | without camel case that fails: a declared `aB2c` accepts `a_b2c`, which is sent as `aB2C`; a declared `Id` accepts `id`, which is sent as `id`; a declared `a_b` accepts `a_b`, which is sent as `aB` |
| Base.Attribute | ibots/base.py:221-224 | only the five primitive names resolve, each to its own primitive |
| Base.ListVariables | ibots/base.py:1024-1025 | the defaulting of `first`; its contract is carried by `ListArguments` |
| Base.Prepare | ibots/base.py:1020-1042 | the arguments each primitive passes to `api_call`, or the assertion it fails; its contract is carried by `NodeArguments`, `ListArguments`, `UserArguments` and `UpdateArguments` |
| Base.Finish | ibots/base.py:1021-1042 | queries return `api_call`'s result and mutations its first item; its contract is carried by `AcceptedIsSent` |
| Base.Reserved | ibots/base.py:1020-1039 | the keywords that collide with a primitive's own parameters; `InvokeReserved` states their effect |
| Base.NodeArguments | ibots/base.py:1020-1021 | `_node` sends the caller's arguments unchanged |
| Base.ListArguments | ibots/base.py:1023-1027 | `_list` always sends `first`: the caller's value if given, otherwise `FIRST` appended last; no other argument changes |
| Base.UserArguments | ibots/base.py:1029-1042 | `_create` and `_delete` raise AssertionError exactly when the caller gives `user`; otherwise they send the bot's id as `user`, appended last |
| Base.UpdateArguments | ibots/base.py:1034-1037 | `_update` succeeds exactly when `id` is given and `user` is not, and then adds nothing |
| Base.ListNeedsFirst | ibots/base.py:1023-1027 | an operation that does not declare `first` can never be called as a list |
| Base.MutationNeedsUser | ibots/base.py:1029-1032 | a create or delete operation that does not declare `user` is always rejected |
| Base.Suffix | ibots/base.py:213 | the definition of `name.split('_')[-1]`; its contract is carried by `SuffixAfter` and `SuffixShape` |
| Base.CallLevel | ibots/base.py:213-216 | the level of the "Calling" record; its contract is carried by `InfoOnlyForCreate` |
| Base.CallingMessage | ibots/base.py:213-216 | the "Calling" record with the method's name; `Invoke` logs it first through `InvokeEffect` |
| Base.SuffixAfter | ibots/base.py:213 | the suffix of `prefix + "_" + s` is `s` when `s` has no underscore |
| Base.SuffixShape | ibots/base.py:213 | the suffix has no underscore and ends the name, right after an underscore unless it is the whole name |
| Base.InfoOnlyForCreate | ibots/base.py:213-216 | a call is announced at info level exactly when the name is `create` or ends in `_create` |
| Base.DispatchBySuffix | ibots/base.py:220-224 | a method named `<prefix>_<suffix>` resolves to that suffix's primitive |
| Base.Bot.constructor | ibots/base.py:42-66 | a logged-in bot with the given id, catalogue and endpoint, and empty request and log histories |
| Base.Bot.ApiResult | ibots/base.py:68-101 | what `api_call` returns; `ApiCall` is proved against it, and `RejectedBeforeSending`/`AcceptedIsSent` state it per primitive |
| Base.Bot.ApiEffect | ibots/base.py:85-101 | how `api_call` extends the histories; `ApiCall` is proved against it |
| Base.Bot.Outcome | ibots/base.py:1020-1042 | what each primitive returns; the five primitive methods are proved against it, and `RejectedBeforeSending`/`AcceptedIsSent` state it |
| Base.Bot.Effect | ibots/base.py:1020-1042 | how each primitive extends the histories; a failed assertion changes nothing |
| Base.Bot.InvokeOutcome | ibots/base.py:203-229 | what a `load_gql` method returns; `Invoke` is proved against it, and `InvokeStatus`, `InvokeReserved`, `InvokeSucceeded` and `InvokeRunsPrimitive` state it |
| Base.Bot.InvokeEffect | ibots/base.py:203-229 | how a `load_gql` method extends the histories: announced first, and only an entered primitive can send a request |
| Base.Bot.ApiCall | ibots/base.py:68-101 | the result and the new history match `ApiResult`/`ApiEffect`: an undeclared variable is logged and raises StopBot before anything is sent; otherwise exactly one request, with the renamed variables, is recorded and its answer returned |
| Base.Bot.Node | ibots/base.py:1020-1021 | result and history match `Outcome`/`Effect` for `_node` |
| Base.Bot.List | ibots/base.py:1023-1027 | result and history match `Outcome`/`Effect` for `_list` |
| Base.Bot.Create | ibots/base.py:1029-1032 | result and history match `Outcome`/`Effect` for `_create`: nothing is sent when the assertion fails |
| Base.Bot.Update | ibots/base.py:1034-1037 | result and history match `Outcome`/`Effect` for `_update` |
| Base.Bot.Delete | ibots/base.py:1039-1042 | result and history match `Outcome`/`Effect` for `_delete` |
| Base.Bot.Invoke | ibots/base.py:203-229 | result and history match `InvokeOutcome`/`InvokeEffect`: the call is always logged first; an unknown primitive raises AttributeError; then a name missing from the catalogue raises KeyError; then `_status`, or a keyword `self` or `op`, raises TypeError; otherwise the primitive's result is collapsed |
| Base.RejectedBeforeSending | ibots/base.py:85-93 | for every primitive, an undeclared variable makes the outcome StopBot |
| Base.AcceptedIsSent | ibots/base.py:95-101 | for every primitive, accepted variables give the endpoint's answer: returned as it is for queries, its first item for mutations |
| Base.InvokeRunsPrimitive | ibots/base.py:220-224 | a catalogued method named `<prefix>_<suffix>`, called without a keyword `self` or `op`, returns the collapsed outcome of that suffix's primitive on its own operation |
| Base.InvokeStatus | ibots/base.py:220-224 | a method named `<prefix>_status` raises KeyError when the catalogue lacks it and TypeError otherwise, since `_status` takes no operation |
| Base.InvokeReserved | ibots/base.py:220-224 | a keyword `self` or `op` always fails the call, with TypeError once the primitive and the operation are found |
| Base.InvokeSucceeded | ibots/base.py:203-229 | a call that succeeds was catalogued, named a primitive, passed the primitive's assertions, and every argument it sent passed the variable check |

## Left out

- Utils.SnakeCase: only ASCII letters have a case. Upper-case letters outside ASCII, which `[A-Z]` does not match but `lower()` would change, are not modelled. The same holds for `Utils.MixedCase` and `title`.
- Base.RenameSendsDeclared: holds only for declared names that are camel case. Three shapes of declared name make the check accept a variable whose renamed form is not the declared name: a leading capital (`Id`); a lower-case letter right after a digit in a part after an inner capital (`aB2c`, since `title` capitalises a letter after a digit); and an underscore (`a_b`, sent as `aB`). `Base.RenameNotCamel` shows one of each.
- Floating-point values: JSON numbers are integers only.
- Logging in: the HTTP login request, the check on the returned id, and `AuthenticateBotException`. The constructor takes the id and requires it to be non-empty. The id is modelled as a string, sent as `Str(id)`; the JSON login answer could hold another type under `user_id`, and the falsy values other than `""` that `if not self.id` rejects are not modelled.
- The GraphQL client: a deterministic function field stands in for it. Network failures, and answers that vary between calls, are not modelled. Parsing of the query text is also out.
- An operation is its name plus its declared variable names. The assertion that the text holds exactly one definition is therefore not modelled.
- The unsupported-variable message names the operation by its name, not by its full query text.
- `api_call` with `variables=None`: the primitives always pass a dict, so that path is not modelled. It would fail while building the renamed dict.
- The bytecode check in `load_gql`, which ensures the decorated method's body is empty. Methods are modelled only by their names.
- The debug log lines that print the variables and the result as indented JSON. Only the "Calling" record is kept.
- Extra positional arguments to a decorated method, and subclasses that override `FIRST`.
- `refresh_node`, which the constructor calls, and the named queries and mutations it relies on (`bot_node` and the rest).
- Other operations of the two bot classes `AbstractBot` and `AbstractBasicBot`: `api_wait` and the `Waiter` it listens to, `_status`, `get_app_link`, `comment_tree` and `comment_chain`.
- `amount_to_string`, `localtime`, loading the operation catalogue from disk, and the example bots under `ibots/bots/`: `client.py` and `server.py` are not part of this model.
- Idempotence of collapsing holds only when the first pass leaves no wrapper key. The code renames a key `Node` to `node`, which a second pass then unwraps. `Collapse.RecurseIdempotent` and `Collapse.RecurseNotIdempotent` state both facts.

## Findings

| source | as written | input that shows it | evidently intended | confidence | as-written member | corrected member |
|---|---|---|---|---|---|---|
| ibots/utils.py:31-32 | for `depth != 1`, `first_item` recurses with the default depth 1 instead of `depth - 1`, so it always descends exactly two levels | `first_item({"a": {"b": {"c": 1}}}, 3)` returns `{"c": 1}` | descend `depth` levels and return `1` | not executed | Utils.FirstItemDepthIgnored | Utils.FirstItemAtDepth |

Every caller in the modelled code uses the default depth 1, where the two
definitions agree, so the rest of the model uses the corrected `FirstItemAt`.
