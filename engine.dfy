/** `createFormulaEngine`: the engine object with its token cache, the registered functions and
  * the locale map, and `evaluateFormula`, which tokenizes (through the cache), builds a parser
  * over a fresh evaluation context and reads any throw as `#VALUE!`. */
module Engine {
  import opened Wrappers
  import opened Text
  import opened Values
  import opened Errors
  import opened Tokenizer
  import opened Resolution
  import opened Evaluator
  import opened FormulaParser
  import Builtins

  /** The most formulas the token cache holds. */
  const TOKEN_CACHE_MAX: nat := 2048

  /** A locale entry counts only when it is present and non-empty, since `resolveFunction`
    * tests the entry for truthiness. */
  predicate Mapped(localeMap: map<string, string>, k: string)
  {
    k in localeMap && localeMap[k] != ""
  }

  /** `resolveFunction`: the upper-cased locale mapping of the upper-cased name, else that of the
    * name as written, else the name upper-cased. */
  function ResolveFunction(localeMap: map<string, string>, name: string): (r: string)
    ensures Mapped(localeMap, Upper(name)) ==> r == Upper(localeMap[Upper(name)])
    ensures !Mapped(localeMap, Upper(name)) && Mapped(localeMap, name) ==> r == Upper(localeMap[name])
    ensures !Mapped(localeMap, Upper(name)) && !Mapped(localeMap, name) ==> r == Upper(name)
    ensures NoLower(r)
  {
    var upper := Upper(name);
    if Mapped(localeMap, upper) then
      UpperHasNoLower(localeMap[upper]);
      Upper(localeMap[upper])
    else if Mapped(localeMap, name) then
      UpperHasNoLower(localeMap[name]);
      Upper(localeMap[name])
    else
      UpperHasNoLower(name);
      upper
  }

  /** The built-in table as the parser sees it: the entry under a name, called with the
    * arguments and shapes. Built-ins do not throw. */
  function BuiltinTable(host: Builtins.HostMath): string -> Option<Fn>
  {
    name =>
      match Builtins.Named(name)
      case None => None
      case Some(b) => Some((args: seq<Value>, meta: seq<Option<RangeUtils.Shape>>) => Some(Builtins.Apply(b, args, meta, host)))
  }

  /** What the engine hands to `makeParser` for one evaluation. */
  function EngineEnv(localeMap: map<string, string>, customs: map<string, Fn>, host: Builtins.HostMath,
                     pow: (Option<real>, Option<real>) -> Option<real>, ctx: Context): Env
  {
    Env(ctx, name => ResolveFunction(localeMap, name), customs, BuiltinTable(host), pow)
  }

  /** What `evaluateFormula` returns: `''` for blank text, otherwise the expression's value with
    * any throw read as `#VALUE!`. */
  function EvaluateFormulaSpec(localeMap: map<string, string>, customs: map<string, Fn>, host: Builtins.HostMath,
                               pow: (Option<real>, Option<real>) -> Option<real>, ctx: Context, text: string): Value
  {
    if Trim(text) == "" then Str("")
    else Evaluate(EngineEnv(localeMap, customs, host, pow, ctx), TokenizeSpec(text))
  }

  /** No two positions of a sequence hold the same key. */
  predicate Distinct(keys: seq<string>)
  {
    forall i, j :: 0 <= i < j < |keys| ==> keys[i] != keys[j]
  }

  /** `order` lists the keys of `cache`, each once. */
  ghost predicate Listed(order: seq<string>, cache: map<string, seq<Token>>)
  {
    Distinct(order) && forall k :: k in cache <==> k in order
  }

  /** Every entry of the cache is the tokens of its formula. */
  ghost predicate Tokenized(cache: map<string, seq<Token>>)
  {
    forall k :: k in cache ==> cache[k] == TokenizeSpec(k)
  }

  /** Dropping the oldest key keeps the listing. */
  lemma EvictOldest(order: seq<string>, cache: map<string, seq<Token>>)
    requires Listed(order, cache) && order != []
    ensures Listed(order[1..], cache - {order[0]})
  {
    forall k | k in order[1..]
      ensures k != order[0]
    {
      var j :| 1 <= j < |order| && order[j] == k;
    }
  }

  /** Appending a new key keeps the listing. */
  lemma AppendNewest(order: seq<string>, cache: map<string, seq<Token>>, text: string, tokens: seq<Token>)
    requires Listed(order, cache) && text !in cache
    ensures Listed(order + [text], cache[text := tokens])
  {
  }

  /** Caching a formula's own tokens keeps every entry right. */
  lemma TokenizedAdd(cache: map<string, seq<Token>>, text: string, tokens: seq<Token>)
    requires Tokenized(cache) && tokens == TokenizeSpec(text)
    ensures Tokenized(cache[text := tokens])
  {
  }

  /** The formulas listed after a miss on `text`: the oldest dropped when the cache is full,
    * then `text` appended. */
  function KeysAfterMiss(order: seq<string>, text: string): seq<string>
  {
    if |order| >= TOKEN_CACHE_MAX then order[1..] + [text] else order + [text]
  }

  /** The cache after a miss on `text`. */
  function CacheAfterMiss(order: seq<string>, cache: map<string, seq<Token>>, text: string,
                          tokens: seq<Token>): map<string, seq<Token>>
    requires order != [] || |order| < TOKEN_CACHE_MAX
  {
    if |order| >= TOKEN_CACHE_MAX then (cache - {order[0]})[text := tokens] else cache[text := tokens]
  }

  /** A miss keeps the cache within its bound, listed and right. */
  lemma MissKeepsCache(order: seq<string>, cache: map<string, seq<Token>>, text: string, tokens: seq<Token>)
    requires |order| <= TOKEN_CACHE_MAX && Listed(order, cache) && Tokenized(cache)
    requires text !in cache && tokens == TokenizeSpec(text)
    ensures var keys, kept := KeysAfterMiss(order, text), CacheAfterMiss(order, cache, text, tokens);
      |keys| <= TOKEN_CACHE_MAX && Listed(keys, kept) && Tokenized(kept)
  {
    if |order| >= TOKEN_CACHE_MAX {
      EvictOldest(order, cache);
      AppendNewest(order[1..], cache - {order[0]}, text, tokens);
      TokenizedAdd(cache - {order[0]}, text, tokens);
    } else {
      AppendNewest(order, cache, text, tokens);
      TokenizedAdd(cache, text, tokens);
    }
  }

  class FormulaEngine {
    const localeMap: map<string, string>
    const host: Builtins.HostMath
    const pow: (Option<real>, Option<real>) -> Option<real>
    var customs: map<string, Fn>
    /** `tokenCache`, and its keys in insertion order (the order a `Map` iterates them in). */
    var tokenCache: map<string, seq<Token>>
    var order: seq<string>

    /** The cache holds at most `TOKEN_CACHE_MAX` formulas, `order` lists each cached formula
      * once, and every entry is the formula's tokens. */
    ghost predicate Valid()
      reads this
    {
      |order| <= TOKEN_CACHE_MAX && Listed(order, tokenCache) && Tokenized(tokenCache)
    }

    constructor (localeMap: map<string, string>, host: Builtins.HostMath,
                 pow: (Option<real>, Option<real>) -> Option<real>)
      ensures this.localeMap == localeMap && this.host == host && this.pow == pow
      ensures customs == map[] && tokenCache == map[] && order == []
      ensures Valid()
    {
      this.localeMap := localeMap;
      this.host := host;
      this.pow := pow;
      customs := map[];
      tokenCache := map[];
      order := [];
    }

    /** `getCachedTokens`: a hit returns the stored tokens and reorders nothing; a miss
      * tokenizes, evicts the oldest formula when the cache is full, and appends the new one. */
    method GetCachedTokens(text: string) returns (tokens: seq<Token>)
      requires Valid()
      modifies this
      ensures Valid()
      ensures tokens == TokenizeSpec(text)
      ensures customs == old(customs)
      ensures text in old(tokenCache) ==> tokenCache == old(tokenCache) && order == old(order)
      ensures text !in old(tokenCache) && |old(order)| < TOKEN_CACHE_MAX ==>
        order == old(order) + [text] && tokenCache == old(tokenCache)[text := tokens]
      ensures text !in old(tokenCache) && |old(order)| >= TOKEN_CACHE_MAX ==>
        order == old(order)[1..] + [text] &&
        tokenCache == (old(tokenCache) - {old(order)[0]})[text := tokens]
    {
      if text in tokenCache {
        return tokenCache[text];
      }
      tokens := Tokenize(text);
      StoreMiss(text, tokens);
    }

    /** The miss half of `getCachedTokens`: evict the oldest formula when the cache is full, then
      * append the new one. */
    method StoreMiss(text: string, tokens: seq<Token>)
      requires Valid() && text !in tokenCache && tokens == TokenizeSpec(text)
      modifies this
      ensures Valid()
      ensures customs == old(customs)
      ensures order == KeysAfterMiss(old(order), text)
      ensures tokenCache == CacheAfterMiss(old(order), old(tokenCache), text, tokens)
    {
      ghost var before, listed := tokenCache, order;
      tokenCache, order := CacheAfterMiss(order, tokenCache, text, tokens), KeysAfterMiss(order, text);
      MissKeepsCache(listed, before, text, tokens);
    }

    /** `registerFunction`: stored under the upper-cased name, replacing any earlier one. */
    method RegisterFunction(name: string, f: Fn)
      modifies this
      ensures customs == old(customs)[Upper(name) := f]
      ensures tokenCache == old(tokenCache) && order == old(order)
    {
      customs := customs[Upper(name) := f];
    }

    /** `clearCache`. */
    method ClearCache()
      modifies this
      ensures tokenCache == map[] && order == [] && customs == old(customs)
      ensures Valid()
    {
      tokenCache := map[];
      order := [];
    }

    /** `evaluateFormula`: `''` for blank text; otherwise the tokens through the cache, a
      * parser over a fresh resolve cache and in-flight set, and `#VALUE!` for a throw. */
    method EvaluateFormula(text: string, ctx: Context) returns (v: Value)
      requires Valid()
      modifies this
      ensures Valid()
      ensures v == EvaluateFormulaSpec(localeMap, customs, host, pow, ctx, text)
      ensures customs == old(customs)
    {
      if text == "" || Trim(text) == "" {
        return Str("");
      }
      var tokens := GetCachedTokens(text);
      var context := new EvalContext(ctx);
      var env := EngineEnv(localeMap, customs, host, pow, ctx);
      var parser := new Parser(tokens, env, context);
      var r := parser.ParseComparison();
      v := if r.None? then Error(VALUE) else r.value;
    }
  }

  // ---- properties ----

  /** Blank or whitespace-only text evaluates to `''`. */
  lemma BlankText(localeMap: map<string, string>, customs: map<string, Fn>, host: Builtins.HostMath,
                  pow: (Option<real>, Option<real>) -> Option<real>, ctx: Context, text: string)
    requires AllSpace(text)
    ensures EvaluateFormulaSpec(localeMap, customs, host, pow, ctx, text) == Str("")
  {
    TrimEmptyIffAllSpace(text);
  }

  /** A name the table has is found under its upper-cased form, and only names of the table are
    * found among the built-ins. */
  lemma BuiltinTableFinds(host: Builtins.HostMath, name: string)
    ensures BuiltinTable(host)(name).Some? <==> Builtins.Named(name).Some?
    ensures Builtins.Named(name).Some? ==>
      BuiltinTable(host)(name).value([], []) == Some(Builtins.Apply(Builtins.Named(name).value, [], [], host))
  {
  }

  /** A registered function overrides the built-in of the same name, under any casing of the
    * name used to register it and to call it. */
  lemma RegisteredOverridesBuiltin(localeMap: map<string, string>, customs: map<string, Fn>,
                                   host: Builtins.HostMath, pow: (Option<real>, Option<real>) -> Option<real>,
                                   ctx: Context, name: string, f: Fn)
    requires !Mapped(localeMap, Upper(name)) && !Mapped(localeMap, name)
    ensures Lookup(EngineEnv(localeMap, customs[Upper(name) := f], host, pow, ctx),
                   ResolveFunction(localeMap, name)) == Some(f)
  {
  }

  /** The locale mapping applies to the name in any casing, and the result is upper-case. */
  lemma LocaleNameResolves(localeMap: map<string, string>, name: string)
    requires Mapped(localeMap, Upper(name))
    ensures ResolveFunction(localeMap, name) == Upper(localeMap[Upper(name)])
    ensures ResolveFunction(localeMap, Upper(name)) == Upper(localeMap[Upper(name)])
  {
    UpperIdempotent(name);
  }
}
