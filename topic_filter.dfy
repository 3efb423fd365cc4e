/**
 * The rewrite of a route template into an MQTT subscription filter, as
 * `BaseMqttReactor.addGetRoute` does it with `re.sub(r"\{(.+?)\}", "+", route)`:
 * every leftmost, non-overlapping match of the pattern is replaced by the
 * single-level wildcard `+` (section 4.7.1.3 of MQTT 3.1.1), everything else is
 * copied.
 *
 * A match at the start of a string `s` is `{`, then one or more characters that
 * are not a newline (`.` without DOTALL), then the first `}` that can close it
 * (`+?` is lazy). So it ends at the least `j >= 2` with `s[j] == '}'`, provided
 * no newline comes before `j`; a `}` right after the `{` is swallowed by `.+?`.
 */
module TopicFilter {
  import opened Wrappers

  /** The pattern, anchored at index 0 of `s`, can end with the `}` at index `j`. */
  ghost predicate IsCloseAt(s: string, j: int)
  {
    2 <= j < |s| && s[0] == '{' && s[j] == '}' &&
    forall n :: 1 <= n < j ==> s[n] != '\n'
  }

  /** The lazy quantifier picks `j`: it can close there and at no earlier index. */
  ghost predicate LazyMatch(s: string, j: int)
  {
    IsCloseAt(s, j) && forall m :: 2 <= m < j ==> s[m] != '}'
  }

  /**
   * Scans `s` from index `k` for the `}` that closes a `{` at index 0: the first
   * `}` at or after `k`, unless a newline comes first.
   */
  function FindClose(s: string, k: nat): (r: Option<nat>)
    requires 2 <= k <= |s| && s[0] == '{'
    requires forall n :: 1 <= n < k ==> s[n] != '\n'
    ensures r.Some? ==> k <= r.value && IsCloseAt(s, r.value)
    ensures r.Some? ==> forall m :: k <= m < r.value ==> s[m] != '}'
    ensures r.None? ==> forall j :: k <= j ==> !IsCloseAt(s, j)
    decreases |s| - k
  {
    if k == |s| then None
    else if s[k] == '}' then Some(k)
    else if s[k] == '\n' then None
    else FindClose(s, k + 1)
  }

  /** Where the pattern's match starting at index 0 of `s` ends, if there is one. */
  function MatchEnd(s: string): (r: Option<nat>)
    ensures r.Some? ==> LazyMatch(s, r.value)
    ensures r.None? ==> forall j :: !IsCloseAt(s, j)
  {
    if |s| >= 3 && s[0] == '{' && s[1] != '\n' then FindClose(s, 2) else None
  }

  /**
   * The subscription filter derived from a route: a left-to-right scan that
   * emits `+` for a match and resumes after its `}`, and otherwise copies one
   * character. A match consumes at least three characters and emits one.
   */
  function SubscriptionFilter(route: string): (filter: string)
    ensures |filter| <= |route|
    decreases |route|
  {
    if route == [] then []
    else match MatchEnd(route)
      case Some(j) => "+" + SubscriptionFilter(route[j + 1..])
      case None => [route[0]] + SubscriptionFilter(route[1..])
  }

  // ---------------------------------------------------------------------------
  // A reference description of the same rewrite: a route read as a list of
  // pieces, each a character kept as it is or a placeholder `{inner}`.

  datatype Piece = Literal(c: char) | Placeholder(inner: string)

  /** The route text a piece stands for. */
  function Text(p: Piece): string
  {
    match p
    case Literal(c) => [c]
    case Placeholder(inner) => Braced(inner)
  }

  function Braced(inner: string): string
  {
    "{" + inner + "}"
  }

  function Render(ps: seq<Piece>): string
  {
    if ps == [] then [] else Text(ps[0]) + Render(ps[1..])
  }

  /** The filter text of the pieces: a character as it is, a placeholder as `+`. */
  function Wildcarded(ps: seq<Piece>): string
  {
    if ps == [] then []
    else (match ps[0] case Literal(c) => [c] case Placeholder(_) => "+") + Wildcarded(ps[1..])
  }

  /**
   * The pieces are the ones the regular-expression scan finds: every
   * placeholder is exactly the lazy match at its position, and a literal
   * character stands where no match can start.
   */
  ghost predicate Scanned(ps: seq<Piece>)
  {
    if ps == [] then true
    else
      (match ps[0]
       case Literal(_) => forall j :: !IsCloseAt(Render(ps), j)
       case Placeholder(inner) => LazyMatch(Render(ps), |inner| + 1))
      && Scanned(ps[1..])
  }

  /** Every route has a scan, and the filter is the wildcarded form of it. */
  lemma {:induction false} Decompose(route: string) returns (ps: seq<Piece>)
    ensures Render(ps) == route && Scanned(ps)
    ensures SubscriptionFilter(route) == Wildcarded(ps)
    decreases |route|
  {
    if route == [] {
      ps := [];
    } else {
      match MatchEnd(route)
      case Some(j) =>
        var rest := Decompose(route[j + 1..]);
        ps := [Placeholder(route[1..j])] + rest;
        PlaceholderFirst(route, j, rest);
      case None =>
        var rest := Decompose(route[1..]);
        ps := [Literal(route[0])] + rest;
        LiteralFirst(route, rest);
    }
  }

  /** A scan of what follows a match, with the match put in front. */
  lemma PlaceholderFirst(route: string, j: nat, rest: seq<Piece>)
    requires LazyMatch(route, j)
    requires Render(rest) == route[j + 1..] && Scanned(rest)
    ensures Render([Placeholder(route[1..j])] + rest) == route
    ensures Scanned([Placeholder(route[1..j])] + rest)
    ensures Wildcarded([Placeholder(route[1..j])] + rest) == "+" + Wildcarded(rest)
  {
    var ps := [Placeholder(route[1..j])] + rest;
    assert ps[0] == Placeholder(route[1..j]) && ps[1..] == rest;
    assert route == Braced(route[1..j]) + route[j + 1..];
  }

  /** A scan of what follows a character no match starts at, with it put in front. */
  lemma LiteralFirst(route: string, rest: seq<Piece>)
    requires route != [] && forall j :: !IsCloseAt(route, j)
    requires Render(rest) == route[1..] && Scanned(rest)
    ensures Render([Literal(route[0])] + rest) == route
    ensures Scanned([Literal(route[0])] + rest)
    ensures Wildcarded([Literal(route[0])] + rest) == [route[0]] + Wildcarded(rest)
  {
    var ps := [Literal(route[0])] + rest;
    assert ps[0] == Literal(route[0]) && ps[1..] == rest;
    assert route == [route[0]] + route[1..];
  }

  lemma RenderEmpty(ps: seq<Piece>)
    ensures Render(ps) == [] <==> ps == []
  {
    if ps != [] {
      assert |Text(ps[0])| > 0;
    }
  }

  /** Two scans of the same route start with the same piece. */
  lemma SameFirstPiece(ps: seq<Piece>, qs: seq<Piece>)
    requires ps != [] && qs != []
    requires Scanned(ps) && Scanned(qs) && Render(ps) == Render(qs)
    ensures ps[0] == qs[0]
  {
    var s := Render(ps);
    match ps[0]
    case Literal(c) => {
      match qs[0]
      case Literal(d) =>
        assert s[0] == c && s[0] == d;
      case Placeholder(inner) =>
        assert false;
    }
    case Placeholder(inner) => {
      match qs[0]
      case Literal(d) =>
        assert false;
      case Placeholder(inner') =>
        var j, j' := |inner| + 1, |inner'| + 1;
        assert LazyMatch(s, j) && LazyMatch(s, j');
        assert j == j';
        assert s[..j + 1] == Braced(inner) == Braced(inner');
        assert inner == Braced(inner)[1..j] && inner' == Braced(inner')[1..j];
    }
  }

  /** A route has only one scan. */
  lemma {:induction false} ScanIsUnique(ps: seq<Piece>, qs: seq<Piece>)
    requires Scanned(ps) && Scanned(qs) && Render(ps) == Render(qs)
    ensures ps == qs
    decreases |ps|
  {
    if ps == [] || qs == [] {
      RenderEmpty(ps);
      RenderEmpty(qs);
    } else {
      SameFirstPiece(ps, qs);
      var s := Render(ps);
      var n := |Text(ps[0])|;
      assert Render(ps[1..]) == s[n..] == Render(qs[1..]);
      ScanIsUnique(ps[1..], qs[1..]);
      assert ps == [ps[0]] + ps[1..] && qs == [qs[0]] + qs[1..];
    }
  }

  /**
   * The subscription filter of a route replaces each placeholder the scan finds
   * by exactly one `+` and copies every other character verbatim and in order.
   */
  lemma {:induction false} FilterOfScan(route: string, ps: seq<Piece>)
    requires Render(ps) == route && Scanned(ps)
    ensures SubscriptionFilter(route) == Wildcarded(ps)
  {
    var qs := Decompose(route);
    ScanIsUnique(ps, qs);
  }

  /** A route without `{`, or without `}`, holds no match and is its own filter. */
  lemma {:induction false} NoPlaceholderUnchanged(route: string)
    requires '{' !in route || '}' !in route
    ensures SubscriptionFilter(route) == route
    decreases |route|
  {
    if route != [] {
      match MatchEnd(route)
      case Some(j) =>
        assert false;
      case None =>
        NoPlaceholderUnchanged(route[1..]);
        assert route == [route[0]] + route[1..];
    }
  }

  /** The filter has the route's length only when nothing was replaced. */
  lemma {:induction false} SameLengthOnlyIfUnchanged(route: string)
    ensures |SubscriptionFilter(route)| == |route| <==> SubscriptionFilter(route) == route
    decreases |route|
  {
    if route != [] {
      match MatchEnd(route)
      case Some(j) =>
        assert |SubscriptionFilter(route[j + 1..])| <= |route| - j - 1;
      case None =>
        SameLengthOnlyIfUnchanged(route[1..]);
        assert route == [route[0]] + route[1..];
    }
  }

  /** Text before the first `{` is copied to the filter verbatim. */
  lemma {:induction false} PrefixCopied(prefix: string, rest: string)
    requires '{' !in prefix
    ensures SubscriptionFilter(prefix + rest) == prefix + SubscriptionFilter(rest)
    decreases |prefix|
  {
    if prefix != [] {
      var s := prefix + rest;
      assert s[0] == prefix[0] != '{';
      assert s[1..] == prefix[1..] + rest;
      PrefixCopied(prefix[1..], rest);
      assert prefix == [prefix[0]] + prefix[1..];
    } else {
      assert prefix + rest == rest;
    }
  }

  /**
   * What the pattern's `(.+?)` can capture: one or more characters, none of
   * them a newline, and no `}` after the first (the lazy match stops there).
   */
  predicate PlaceholderInner(inner: string)
  {
    |inner| >= 1 && '\n' !in inner && '}' !in inner[1..]
  }

  /**
   * A placeholder whose inner text is non-empty, holds no newline and no `}`
   * after its first character is one match, and becomes one `+`.
   */
  lemma PlaceholderReplaced(inner: string, rest: string)
    requires PlaceholderInner(inner)
    ensures SubscriptionFilter(Braced(inner) + rest) == "+" + SubscriptionFilter(rest)
  {
    var s := Braced(inner) + rest;
    var j := |inner| + 1;
    assert s[j] == '}' && s[0] == '{';
    assert forall n :: 1 <= n < j ==> s[n] == inner[n - 1];
    assert IsCloseAt(s, j);
    match MatchEnd(s)
    case None =>
      assert false;
    case Some(k) =>
      assert k == j;
      assert s[j + 1..] == rest;
  }

  /**
   * Text up to the first placeholder is copied, and that placeholder becomes
   * one `+`.
   */
  lemma PlaceholderAfterPrefix(prefix: string, inner: string, rest: string)
    requires '{' !in prefix && PlaceholderInner(inner)
    ensures SubscriptionFilter(prefix + Braced(inner) + rest)
         == prefix + "+" + SubscriptionFilter(rest)
  {
    var tail := Braced(inner) + rest;
    PlaceholderReplaced(inner, rest);
    PrefixCopied(prefix, tail);
    assert prefix + Braced(inner) + rest == prefix + tail;
  }

  /**
   * A route with one placeholder: the text around it is copied and the
   * placeholder becomes one `+`.
   */
  lemma OnePlaceholderRoute(prefix: string, inner: string, suffix: string)
    requires '{' !in prefix && PlaceholderInner(inner) && '{' !in suffix
    ensures SubscriptionFilter(prefix + Braced(inner) + suffix) == prefix + "+" + suffix
  {
    NoPlaceholderUnchanged(suffix);
    PlaceholderAfterPrefix(prefix, inner, suffix);
  }

  /**
   * Any single placeholder in the middle segment, as in
   * `microdrop/{device_id}/exit`, gives the filter `microdrop/+/exit`.
   */
  lemma DeviceExitFilter(name: string)
    requires PlaceholderInner(name)
    ensures SubscriptionFilter("microdrop/" + Braced(name) + "/exit") == "microdrop/+/exit"
  {
    OnePlaceholderRoute("microdrop/", name, "/exit");
  }

  /** The match is lazy: `a/{x}/{y}` gives two wildcards, not one. */
  lemma TwoPlaceholdersFilter(x: string, y: string)
    requires PlaceholderInner(x) && PlaceholderInner(y)
    ensures SubscriptionFilter("a/" + Braced(x) + "/" + Braced(y)) == "a/+/+"
  {
    var second := "/" + Braced(y);
    PlaceholderAfterPrefix("/", y, "");
    assert "/" + Braced(y) + "" == second;
    PlaceholderAfterPrefix("a/", x, second);
    assert "a/" + Braced(x) + second == "a/" + Braced(x) + "/" + Braced(y);
  }

  /** Empty braces and an unterminated placeholder are not matches. */
  lemma NoMatchExamples()
    ensures SubscriptionFilter("{}") == "{}"
    ensures SubscriptionFilter("a/{x") == "a/{x"
  {
    NoPlaceholderUnchanged("a/{x");
  }

  /** `.+?` may consume a `}` or a `{` as its first character. */
  lemma BraceInsideExamples()
    ensures SubscriptionFilter("{}}") == "+"
    ensures SubscriptionFilter("{{x}") == "+"
  {
    PlaceholderReplaced("}", "");
    PlaceholderReplaced("{x", "");
    assert "{}}" == Braced("}") + "";
    assert "{{x}" == Braced("{x") + "";
  }
}
