/** The name-case and selection helpers of `ibots/utils.py`: `snake_case`, `mixed_case`
    and `first_item`. Characters are ASCII: only `A`-`Z` and `a`-`z` have a case. */
module Utils {
  import opened Errors
  import opened Json

  predicate IsUpper(c: char) { 'A' <= c <= 'Z' }

  predicate IsLower(c: char) { 'a' <= c <= 'z' }

  predicate IsLetter(c: char) { IsUpper(c) || IsLower(c) }

  function Lower(c: char): (r: char)
    ensures !IsUpper(r) && (IsLetter(c) <==> IsLetter(r))
    ensures IsUpper(c) ==> Upper(r) == c
    ensures !IsUpper(c) ==> r == c
  {
    if IsUpper(c) then (c as int + 32) as char else c
  }

  function Upper(c: char): (r: char)
    ensures !IsLower(r) && (IsLetter(c) <==> IsLetter(r))
    ensures !IsLower(c) ==> r == c
  {
    if IsLower(c) then (c as int - 32) as char else c
  }

  /** `str.lower()` */
  function LowerAll(s: string): (r: string)
    ensures |r| == |s|
  {
    if s == [] then [] else [Lower(s[0])] + LowerAll(s[1..])
  }

  predicate NoUpper(s: string)
  {
    forall i | 0 <= i < |s| :: !IsUpper(s[i])
  }

  predicate Letters(s: string)
  {
    forall i | 0 <= i < |s| :: IsLetter(s[i])
  }

  function CountUpper(s: string): nat
  {
    if s == [] then 0 else (if IsUpper(s[0]) then 1 else 0) + CountUpper(s[1..])
  }

  function Count(c: char, s: string): nat
  {
    if s == [] then 0 else (if s[0] == c then 1 else 0) + Count(c, s[1..])
  }

  // ---------------------------------------------------------------------------
  // snake_case

  /** `re.sub(r'(?<!^)(?=[A-Z])', '_', s)`: an underscore goes in front of every
      upper-case letter except one at the very start. */
  function MarkWords(s: string): string
  {
    if s == [] then [] else [s[0]] + MarkTail(s[1..])
  }

  /** The same substitution on a part of the string that does not start it. */
  function MarkTail(t: string): string
  {
    if t == [] then []
    else (if IsUpper(t[0]) then ['_', t[0]] else [t[0]]) + MarkTail(t[1..])
  }

  /** `snake_case(s)` */
  function SnakeCase(s: string): (r: string)
    ensures NoUpper(r)
  {
    LowerAllNoUpper(MarkWords(s));
    LowerAll(MarkWords(s))
  }

  lemma {:induction false} LowerAllNoUpper(s: string)
    ensures NoUpper(LowerAll(s))
  {
    if s != [] {
      LowerAllNoUpper(s[1..]);
      assert forall i | 1 <= i < |s| :: LowerAll(s)[i] == LowerAll(s[1..])[i - 1];
    }
  }

  lemma {:induction false} LowerAllConcat(a: string, b: string)
    ensures LowerAll(a + b) == LowerAll(a) + LowerAll(b)
  {
    if a != [] {
      assert (a + b)[1..] == a[1..] + b;
      LowerAllConcat(a[1..], b);
    } else {
      assert a + b == b;
    }
  }

  lemma {:induction false} LowerAllIdentity(s: string)
    requires NoUpper(s)
    ensures LowerAll(s) == s
  {
    if s != [] {
      LowerAllIdentity(s[1..]);
    }
  }

  lemma {:induction false} MarkTailIdentity(t: string)
    requires NoUpper(t)
    ensures MarkTail(t) == t
  {
    if t != [] {
      MarkTailIdentity(t[1..]);
    }
  }

  lemma {:induction false} MarkTailLength(t: string)
    ensures |MarkTail(t)| == |t| + CountUpper(t)
  {
    if t != [] {
      MarkTailLength(t[1..]);
    }
  }

  lemma {:induction false} CountConcat(c: char, a: string, b: string)
    ensures Count(c, a + b) == Count(c, a) + Count(c, b)
  {
    if a != [] {
      assert (a + b)[1..] == a[1..] + b;
      CountConcat(c, a[1..], b);
    } else {
      assert a + b == b;
    }
  }

  lemma {:induction false} MarkTailUnderscores(t: string)
    ensures Count('_', MarkTail(t)) == Count('_', t) + CountUpper(t)
  {
    if t != [] {
      var head := if IsUpper(t[0]) then ['_', t[0]] else [t[0]];
      CountConcat('_', head, MarkTail(t[1..]));
      MarkTailUnderscores(t[1..]);
    }
  }

  lemma {:induction false} LowerAllUnderscores(s: string)
    ensures Count('_', LowerAll(s)) == Count('_', s)
  {
    if s != [] {
      LowerAllUnderscores(s[1..]);
    }
  }

  /** The number of upper-case letters after the first character: the places where
      `snake_case` puts an underscore. */
  function InnerUpper(s: string): nat
  {
    if s == [] then 0 else CountUpper(s[1..])
  }

  /** `snake_case` adds exactly one character per upper-case letter after the first. */
  lemma SnakeCaseLength(s: string)
    ensures |SnakeCase(s)| == |s| + InnerUpper(s)
  {
    if s != [] {
      MarkTailLength(s[1..]);
    }
  }

  /** ... and that character is always an underscore. */
  lemma SnakeCaseUnderscores(s: string)
    ensures Count('_', SnakeCase(s)) == Count('_', s) + InnerUpper(s)
  {
    LowerAllUnderscores(MarkWords(s));
    if s != [] {
      CountConcat('_', [s[0]], MarkTail(s[1..]));
      CountConcat('_', [s[0]], s[1..]);
      assert s == [s[0]] + s[1..];
      MarkTailUnderscores(s[1..]);
    }
  }

  /** A name without upper-case letters is already in snake case. */
  lemma SnakeCaseIdentity(s: string)
    requires NoUpper(s)
    ensures SnakeCase(s) == s
  {
    if s != [] {
      MarkTailIdentity(s[1..]);
      assert MarkWords(s) == s;
    }
    LowerAllIdentity(MarkWords(s));
  }

  lemma SnakeCaseIdempotent(s: string)
    ensures SnakeCase(SnakeCase(s)) == SnakeCase(s)
  {
    SnakeCaseIdentity(SnakeCase(s));
  }

  // ---------------------------------------------------------------------------
  // mixed_case

  /** `s.split('_')` */
  function Split(s: string): (r: seq<string>)
    ensures |r| >= 1
  {
    if s == [] then [""]
    else
      var rest := Split(s[1..]);
      if s[0] == '_' then [""] + rest else [[s[0]] + rest[0]] + rest[1..]
  }

  /** `'_'.join(segments)` */
  function Join(segments: seq<string>): string
  {
    if segments == [] then ""
    else if |segments| == 1 then segments[0]
    else segments[0] + "_" + Join(segments[1..])
  }

  /** Splitting loses nothing: joining the parts again gives back the string. */
  lemma {:induction false} JoinSplit(s: string)
    ensures Join(Split(s)) == s
  {
    if s != [] {
      JoinSplit(s[1..]);
      var rest := Split(s[1..]);
      if s[0] != '_' {
        if |rest| > 1 {
          assert ([[s[0]] + rest[0]] + rest[1..])[1..] == rest[1..];
        }
      }
    }
  }

  /** No part contains the separator, and there is one part more than separators. */
  lemma {:induction false} SplitParts(s: string)
    ensures |Split(s)| == Count('_', s) + 1
    ensures forall i | 0 <= i < |Split(s)| :: '_' !in Split(s)[i]
  {
    if s != [] {
      SplitParts(s[1..]);
      var rest := Split(s[1..]);
      if s[0] != '_' {
        assert forall i | 1 <= i < |Split(s)| :: Split(s)[i] == rest[i];
      } else {
        assert forall i | 1 <= i < |Split(s)| :: Split(s)[i] == rest[i - 1];
      }
    }
  }

  lemma {:induction false} SplitNoSeparator(s: string)
    requires '_' !in s
    ensures Split(s) == [s]
  {
    if s != [] {
      assert '_' !in s[1..];
      SplitNoSeparator(s[1..]);
      assert [s[0]] + s[1..] == s;
    }
  }

  /** Splitting at a separator splits the two sides apart. */
  lemma {:induction false} SplitAt(a: string, b: string)
    ensures Split(a + "_" + b) == Split(a) + Split(b)
  {
    if a == [] {
      assert a + "_" + b == "_" + b;
      assert ("_" + b)[1..] == b;
    } else {
      assert (a + "_" + b)[1..] == a[1..] + "_" + b;
      SplitAt(a[1..], b);
    }
  }

  /** `s.title()`: a letter is upper-cased when it does not follow a letter and
      lower-cased when it does; other characters are kept. */
  function Title(s: string): string
  {
    TitleFrom(s, false)
  }

  function TitleFrom(s: string, afterLetter: bool): (r: string)
    ensures |r| == |s|
    ensures '_' !in s ==> '_' !in r
  {
    if s == [] then []
    else
      var c := if !IsLetter(s[0]) then s[0] else if afterLetter then Lower(s[0]) else Upper(s[0]);
      [c] + TitleFrom(s[1..], IsLetter(s[0]))
  }

  lemma {:induction false} TitleFromLetters(s: string)
    requires Letters(s)
    ensures TitleFrom(s, true) == LowerAll(s)
  {
    if s != [] {
      TitleFromLetters(s[1..]);
    }
  }

  /** On a word of letters, `title` capitalises the first letter and lower-cases the rest. */
  lemma TitleWord(s: string)
    requires s != [] && Letters(s)
    ensures Title(s) == [Upper(s[0])] + LowerAll(s[1..])
  {
    TitleFromLetters(s[1..]);
  }

  /** The title-cased parts, concatenated. */
  function TitleAll(segments: seq<string>): string
  {
    if segments == [] then "" else Title(segments[0]) + TitleAll(segments[1..])
  }

  lemma {:induction false} TitleAllConcat(a: seq<string>, b: seq<string>)
    ensures TitleAll(a + b) == TitleAll(a) + TitleAll(b)
  {
    if a != [] {
      assert (a + b)[1..] == a[1..] + b;
      TitleAllConcat(a[1..], b);
    } else {
      assert a + b == b;
    }
  }

  lemma {:induction false} TitleAllNoSeparator(segments: seq<string>)
    requires forall i | 0 <= i < |segments| :: '_' !in segments[i]
    ensures '_' !in TitleAll(segments)
  {
    if segments != [] {
      TitleAllNoSeparator(segments[1..]);
    }
  }

  /** `mixed_case(s)`: the first part as it is, every later part title-cased. */
  function MixedCase(s: string): string
  {
    var segments := Split(s);
    segments[0] + TitleAll(segments[1..])
  }

  /** The result never contains an underscore. */
  lemma MixedCaseNoUnderscore(s: string)
    ensures '_' !in MixedCase(s)
  {
    SplitParts(s);
    TitleAllNoSeparator(Split(s)[1..]);
  }

  /** A name without underscores is returned unchanged. */
  lemma MixedCaseIdentity(s: string)
    requires '_' !in s
    ensures MixedCase(s) == s
  {
    SplitNoSeparator(s);
  }

  /** An empty part, as between two underscores in a row, contributes nothing. */
  lemma MixedCaseEmptyPart(a: string, b: string)
    ensures MixedCase(a + "__" + b) == MixedCase(a + "_" + b)
  {
    var sa, sb := Split(a), Split(b);
    var doubled, single := sa + ([""] + sb), sa + sb;
    assert Split(a + "__" + b) == doubled by {
      SplitEmptyPart(a, b);
    }
    assert Split(a + "_" + b) == single by {
      SplitAt(a, b);
    }
    assert doubled[0] == single[0];
    assert TitleAll(doubled[1..]) == TitleAll(single[1..]) by {
      assert doubled[1..] == (sa[1..] + [""]) + sb;
      assert single[1..] == sa[1..] + sb;
      TitleAllConcat(sa[1..] + [""], sb);
      TitleAllConcat(sa[1..], [""]);
      TitleAllConcat(sa[1..], sb);
      assert TitleAll([""]) == "";
    }
  }

  lemma SplitEmptyPart(a: string, b: string)
    ensures Split(a + "__" + b) == Split(a) + ([""] + Split(b))
  {
    assert Split("_" + b) == [""] + Split(b) by {
      assert ("_" + b)[1..] == b;
    }
    assert a + "__" + b == a + "_" + ("_" + b);
    SplitAt(a, "_" + b);
  }

  /** Everything after the first part is title-cased part by part. */
  lemma MixedCaseAt(a: string, b: string)
    requires '_' !in a
    ensures MixedCase(a + "_" + b) == a + Title(Split(b)[0]) + TitleAll(Split(b)[1..])
  {
    SplitAt(a, b);
    SplitNoSeparator(a);
    assert ([a] + Split(b))[1..] == Split(b);
  }

  // ---------------------------------------------------------------------------
  // snake_case and mixed_case undo each other on GraphQL-style names

  /** A camel-case name: ASCII letters, the first one (if any) lower case. */
  predicate CamelName(s: string)
  {
    Letters(s) && (s != [] ==> IsLower(s[0]))
  }

  predicate LowerLetters(s: string)
  {
    forall i | 0 <= i < |s| :: IsLower(s[i])
  }

  /** The tail part of `snake_case` applied to letters yields lower-case letters and
      underscores only. */
  lemma {:induction false} SnakeTailShape(t: string)
    requires Letters(t)
    ensures forall i | 0 <= i < |LowerAll(MarkTail(t))| ::
              LowerAll(MarkTail(t))[i] == '_' || IsLower(LowerAll(MarkTail(t))[i])
  {
    if t != [] {
      var head := if IsUpper(t[0]) then ['_', t[0]] else [t[0]];
      LowerAllConcat(head, MarkTail(t[1..]));
      SnakeTailShape(t[1..]);
      var r := LowerAll(MarkTail(t));
      assert forall i | |head| <= i < |r| :: r[i] == LowerAll(MarkTail(t[1..]))[i - |head|];
    }
  }

  /** The first part of a string of lower-case letters and underscores is made of
      lower-case letters. */
  lemma {:induction false} SplitFirstLower(s: string)
    requires forall i | 0 <= i < |s| :: s[i] == '_' || IsLower(s[i])
    ensures LowerLetters(Split(s)[0])
    ensures s != [] && s[0] != '_' ==> Split(s)[0] != [] && Split(s)[0][0] == s[0]
  {
    if s != [] {
      SplitFirstLower(s[1..]);
    }
  }

  lemma {:induction false} TitleFromLower(s: string)
    requires LowerLetters(s)
    ensures TitleFrom(s, true) == s
  {
    if s != [] {
      TitleFromLower(s[1..]);
    }
  }

  /** The first part of the remainder after an inserted underscore is the lower-cased
      upper-case letter and the lower-case letters after it; `title` restores the letter. */
  lemma FirstPartTitle(u: char, t: string)
    requires IsUpper(u) && Letters(t)
    ensures var first := Split([Lower(u)] + LowerAll(MarkTail(t)))[0];
      first != [] && first[0] == Lower(u) && Title(first) == [u] + first[1..]
  {
    var b := [Lower(u)] + LowerAll(MarkTail(t));
    SnakeTailShape(t);
    assert forall i | 1 <= i < |b| :: b[i] == LowerAll(MarkTail(t))[i - 1];
    SplitFirstLower(b);
    var first := Split(b)[0];
    TitleFromLower(first[1..]);
    assert first == [first[0]] + first[1..];
  }

  /** The core of the round trip: with `w` the lower-case word already read,
      `mixed_case` restores the letters that the tail of `snake_case` marked. */
  lemma {:induction false} MixedSnakeTail(w: string, r: string)
    requires LowerLetters(w) && Letters(r)
    ensures MixedCase(w + LowerAll(MarkTail(r))) == w + r
    decreases |r|, 2
  {
    if r == [] {
      assert w + LowerAll(MarkTail(r)) == w;
      MixedCaseIdentity(w);
    } else if !IsUpper(r[0]) {
      LowerAllConcat([r[0]], MarkTail(r[1..]));
      assert w + LowerAll(MarkTail(r)) == (w + [r[0]]) + LowerAll(MarkTail(r[1..]));
      MixedSnakeTail(w + [r[0]], r[1..]);
      assert (w + [r[0]]) + r[1..] == w + r;
    } else {
      MixedSnakeUpper(w, r);
    }
  }

  /** The round trip at an upper-case letter, where `snake_case` put an underscore. */
  lemma {:induction false} MixedSnakeUpper(w: string, r: string)
    requires LowerLetters(w) && Letters(r) && r != [] && IsUpper(r[0])
    ensures MixedCase(w + LowerAll(MarkTail(r))) == w + r
    decreases |r|, 1
  {
    var u, t := r[0], r[1..];
    assert w + LowerAll(MarkTail(r)) == w + "_" + ([Lower(u)] + LowerAll(MarkTail(t))) by {
      LowerAllConcat(['_', u], MarkTail(t));
    }
    MixedSnakeMarked(w, u, t);
    assert w + [u] + t == w + r;
  }

  /** ... where the marked letter, lower-cased, starts the part after the underscore. */
  lemma {:induction false} MixedSnakeMarked(w: string, u: char, t: string)
    requires LowerLetters(w) && IsUpper(u) && Letters(t)
    ensures MixedCase(w + "_" + ([Lower(u)] + LowerAll(MarkTail(t)))) == w + [u] + t
    decreases |t| + 1, 0
  {
    var b := [Lower(u)] + LowerAll(MarkTail(t));
    var first, rest := Split(b)[0], TitleAll(Split(b)[1..]);
    assert MixedCase(w + "_" + b) == w + Title(first) + rest by {
      MixedCaseAt(w, b);
    }
    assert Title(first) == [u] + first[1..] && first != [] && first[0] == Lower(u) by {
      FirstPartTitle(u, t);
    }
    assert first[1..] + rest == t by {
      MixedSnakeTail([Lower(u)], t);
      assert first + rest == [Lower(u)] + t;
      assert (first + rest)[1..] == first[1..] + rest;
      assert ([Lower(u)] + t)[1..] == t;
    }
    assert w + ([u] + first[1..]) + rest == w + [u] + (first[1..] + rest);
  }

  /** `mixed_case(snake_case(x)) == x` for every camel-case name `x`. */
  lemma MixedSnakeRoundTrip(x: string)
    requires CamelName(x)
    ensures MixedCase(SnakeCase(x)) == x
  {
    if x == [] {
      assert SnakeCase(x) == [];
      MixedCaseIdentity([]);
    } else {
      LowerAllConcat([x[0]], MarkTail(x[1..]));
      assert SnakeCase(x) == [x[0]] + LowerAll(MarkTail(x[1..]));
      MixedSnakeTail([x[0]], x[1..]);
      assert [x[0]] + x[1..] == x;
    }
  }

  /** Two different camel-case names never share a snake-case form. */
  lemma SnakeCaseInjective(x: string, y: string)
    requires CamelName(x) && CamelName(y) && SnakeCase(x) == SnakeCase(y)
    ensures x == y
  {
    MixedSnakeRoundTrip(x);
    MixedSnakeRoundTrip(y);
  }

  // ---------------------------------------------------------------------------
  // first_item

  /** Python's `<` on strings: code point by code point, a proper prefix first. */
  predicate LexLess(a: string, b: string)
  {
    if a == [] then b != []
    else if b == [] then false
    else a[0] < b[0] || (a[0] == b[0] && LexLess(a[1..], b[1..]))
  }

  predicate LexLeq(a: string, b: string)
  {
    a == b || LexLess(a, b)
  }

  lemma {:induction false} LexIrreflexive(a: string)
    ensures !LexLess(a, a)
  {
    if a != [] {
      LexIrreflexive(a[1..]);
    }
  }

  lemma {:induction false} LexTransitive(a: string, b: string, c: string)
    requires LexLess(a, b) && LexLess(b, c)
    ensures LexLess(a, c)
  {
    if a != [] && a[0] == b[0] && b[0] == c[0] {
      LexTransitive(a[1..], b[1..], c[1..]);
    }
  }

  lemma {:induction false} LexTotal(a: string, b: string)
    requires a != b
    ensures LexLess(a, b) || LexLess(b, a)
  {
    if a != [] && b != [] && a[0] == b[0] {
      assert a == [a[0]] + a[1..] && b == [b[0]] + b[1..];
      LexTotal(a[1..], b[1..]);
    }
  }

  lemma {:induction false} LexAsymmetric(a: string, b: string)
    requires LexLess(a, b)
    ensures !LexLess(b, a)
  {
    if LexLess(b, a) {
      LexTransitive(a, b, a);
      LexIrreflexive(a);
    }
  }

  /** Below `m`, below everything `m` is below. */
  lemma LexBelow(k: string, m: string, keys: seq<string>)
    requires LexLess(k, m) && forall x | x in keys :: LexLeq(m, x)
    ensures forall x | x in keys :: LexLeq(k, x)
  {
    forall x | x in keys ensures LexLeq(k, x) {
      if x != m { LexTransitive(k, m, x); }
    }
  }

  /** `sorted(keys)[0]`: a key that no other key is below. */
  function LeastKey(keys: seq<string>): (k: string)
    requires keys != []
    ensures k in keys && forall x | x in keys :: LexLeq(k, x)
  {
    if |keys| == 1 then keys[0]
    else
      var m := LeastKey(keys[1..]);
      assert keys == [keys[0]] + keys[1..];
      if LexLess(keys[0], m) then
        LexBelow(keys[0], m, keys[1..]);
        keys[0]
      else
        (if keys[0] != m then LexTotal(keys[0], m); m else m)
  }

  /** `len(x)`, where Python defines it. */
  function Len(x: Json): Option<nat>
  {
    match x
    case List(items) => Some(|items|)
    case Obj(fields) => Some(|fields|)
    case Str(s) => Some(|s|)
    case _ => None
  }

  /** `first_item(x, depth)` as written: the value under the least key, and when
      `depth != 1` the same once more, one level down, with the default depth. */
  function FirstItem(x: Json, depth: int): (r: Result<Json>)
    decreases if depth == 1 then 0 else 1
  {
    match x
    case Obj(fields) =>
      if fields == [] then Err(IndexError)
      else
        var v := Get(fields, LeastKey(Keys(fields)));
        if depth == 1 then Ok(v) else FirstItem(v, 1)
    case _ => Err(AttributeError)
  }

  /** At depth 1 the result is the value of the entry whose key is least; a value
      that is not a dict, or an empty dict, is an error. */
  lemma FirstItemLeast(fields: Dict, i: nat)
    requires UniqueKeys(fields) && i < |fields|
    requires forall j | 0 <= j < |fields| :: LexLeq(fields[i].key, fields[j].key)
    ensures FirstItem(Obj(fields), 1) == Ok(fields[i].value)
  {
    var k := LeastKey(Keys(fields));
    assert fields[i].key in Keys(fields);
    if k != fields[i].key {
      var j := IndexOf(fields, k);
      assert LexLess(fields[i].key, k);
      assert LexLess(k, fields[i].key);
      LexAsymmetric(k, fields[i].key);
    }
  }

  lemma FirstItemErrors(x: Json, depth: int)
    ensures !x.Obj? ==> FirstItem(x, depth) == Err(AttributeError)
    ensures x == Obj([]) ==> FirstItem(x, depth) == Err(IndexError)
    ensures FirstItem(x, 1).Ok? <==> x.Obj? && x.fields != []
  {
  }

  /** Whatever `depth` other than 1 is asked for, exactly two levels are descended. */
  lemma FirstItemTwoLevels(x: Json, depth: int)
    requires depth != 1
    ensures FirstItem(x, depth) == match FirstItem(x, 1)
                                   case Ok(v) => FirstItem(v, 1)
                                   case Err(e) => Err(e)
  {
  }

  /** The first item `depth` levels down, as the depth parameter evidently intends. */
  function FirstItemAt(x: Json, depth: int): (r: Result<Json>)
    decreases depth
  {
    match FirstItem(x, 1)
    case Err(e) => Err(e)
    case Ok(v) => if depth <= 1 then Ok(v) else FirstItemAt(v, depth - 1)
  }

  /** The first item `depth` levels below a result, an error passed on. */
  function Descend(r: Result<Json>, depth: int): Result<Json>
  {
    match r
    case Err(e) => Err(e)
    case Ok(v) => FirstItemAt(v, depth)
  }

  /** The corrected helper descends one more level for every extra unit of depth, and
      agrees with the code as written at the default depth, the only one its callers use. */
  lemma {:induction false} FirstItemAtDepth(x: Json, d: int)
    requires d >= 1
    ensures FirstItemAt(x, d + 1) == Descend(FirstItemAt(x, d), 1)
    ensures FirstItemAt(x, 1) == FirstItem(x, 1)
    decreases d
  {
    match FirstItem(x, 1)
    case Err(e) =>
    case Ok(v) =>
      if d > 1 {
        FirstItemAtDepth(v, d - 1);
      }
  }

  /** A three-level dict at depth 3: the code as written returns the dict at the second
      level where the third level's value was asked for. */
  lemma FirstItemDepthIgnored()
    ensures var inner := Obj([Field("c", Int(1))]);
      var x := Obj([Field("a", Obj([Field("b", inner)]))]);
      FirstItem(x, 3) == Ok(inner) && FirstItemAt(x, 3) == Ok(Int(1))
  {
    var inner := Obj([Field("c", Int(1))]);
    var mid := Obj([Field("b", inner)]);
    var x := Obj([Field("a", mid)]);
    FirstItemLeast([Field("a", mid)], 0);
    FirstItemLeast([Field("b", inner)], 0);
    FirstItemLeast([Field("c", Int(1))], 0);
  }
}
