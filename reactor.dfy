/**
 * The state and sequencing of `BaseMqttReactor`: the list of subscription
 * filters built by `addGetRoute`, the loop of `subscribe`, the dispatch of
 * `on_message`, the `should_exit` flag set by `exit`, and `on_connect`.
 *
 * The MQTT client, the path router and the JSON decoder are foreign code.
 * Calls the reactor makes on the outside world (the client, the handlers and
 * the console) are appended, in order, to one log `effects`. The router's
 * `match` and the decoder are function parameters.
 */
module Reactor {
  import opened Wrappers
  import opened TopicFilter

  /** A raw MQTT payload. */
  type Bytes = seq<bv8>

  /**
   * One outward call: a broker subscription, a disconnect, the invalid-JSON
   * report printed for a topic, or a handler called with a payload and the
   * arguments the router extracted.
   */
  datatype Effect<H, A, P> =
    | Subscribed(filter: string)
    | Disconnected
    | ReportedInvalidJson(topic: string)
    | Invoked(handler: H, payload: Option<P>, args: A)

  /** One broker subscription per filter, in the order of the list. */
  function SubscribeCalls<H, A, P>(filters: seq<string>): (calls: seq<Effect<H, A, P>>)
    ensures |calls| == |filters|
    ensures forall i :: 0 <= i < |filters| ==> calls[i] == Subscribed(filters[i])
  {
    if filters == [] then [] else [Subscribed(filters[0])] + SubscribeCalls(filters[1..])
  }

  /**
   * The path router's `match`, which is foreign code: given the (route,
   * handler) pairs registered so far and a topic, the handler to call and
   * the arguments extracted from the topic, if a route matches.
   */
  type Router<!H, A> = (seq<(string, H)>, string) -> Option<(H, A)>

  /**
   * What delivering `raw` on `topic` does: report the topic when the payload
   * is not valid JSON, then call the handler the router finds among `routes`,
   * if any, with the decoded payload (absent when decoding failed) and the
   * router's arguments.
   */
  function Delivery<H, A, P>(routes: seq<(string, H)>, topic: string, raw: Bytes,
                             router: Router<H, A>,
                             decode: Bytes -> Option<P>): (calls: seq<Effect<H, A, P>>)
    ensures |calls| == (if decode(raw).None? then 1 else 0) + (if router(routes, topic).Some? then 1 else 0)
    ensures ReportedInvalidJson(topic) in calls <==> decode(raw).None?
    ensures router(routes, topic).Some? <==> |calls| > 0 && calls[|calls| - 1].Invoked?
    ensures forall k :: 0 <= k < |calls| && calls[k].Invoked? ==>
              k == |calls| - 1 &&
              calls[k] == Invoked(router(routes, topic).value.0, decode(raw), router(routes, topic).value.1)
    ensures forall k :: 0 <= k < |calls| ==> calls[k].Invoked? || calls[k] == ReportedInvalidJson(topic)
  {
    var found := router(routes, topic);
    var payload := decode(raw);
    (if payload.None? then [ReportedInvalidJson(topic)] else []) +
    (if found.Some? then [Invoked(found.value.0, payload, found.value.1)] else [])
  }

  /** The route `on_connect` registers for the plugin's exit handler. */
  function ExitRoute(pluginName: string): string
  {
    "microdrop/" + pluginName + "/exit"
  }

  /**
   * A URL-safe plugin name (`quote_plus` escapes `{`) makes the exit route
   * its own subscription filter.
   */
  lemma ExitRouteIsItsFilter(pluginName: string)
    requires '{' !in pluginName
    ensures SubscriptionFilter(ExitRoute(pluginName)) == ExitRoute(pluginName)
  {
    NoPlaceholderUnchanged(ExitRoute(pluginName));
  }

  /**
   * A reactor with handlers of type `H`, router arguments of type `A` and
   * decoded payloads of type `P`.
   */
  class BaseMqttReactor<H, A, P> {
    /** The (route, handler) pairs handed to the router, oldest first. */
    var routes: seq<(string, H)>
    /** One filter per registered route, duplicates included. */
    var subscriptions: seq<string>
    var shouldExit: bool
    /** Every outward call made so far, oldest first. */
    var effects: seq<Effect<H, A, P>>

    /** Each subscription is the filter of the route registered at its index. */
    ghost predicate Valid()
      reads this
    {
      |subscriptions| == |routes| &&
      forall i :: 0 <= i < |routes| ==> subscriptions[i] == SubscriptionFilter(routes[i].0)
    }

    constructor ()
      ensures Valid()
      ensures routes == [] && subscriptions == [] && !shouldExit && effects == []
    {
      routes := [];
      subscriptions := [];
      shouldExit := false;
      effects := [];
    }

    /** Registers a route with the router and appends its filter. */
    method AddGetRoute(route: string, handler: H)
      requires Valid()
      modifies this`routes, this`subscriptions
      ensures Valid()
      ensures routes == old(routes) + [(route, handler)]
      ensures subscriptions == old(subscriptions) + [SubscriptionFilter(route)]
    {
      routes := routes + [(route, handler)];
      subscriptions := subscriptions + [SubscriptionFilter(route)];
    }

    /** Subscribes the client to every filter, in list order. */
    method Subscribe()
      modifies this`effects
      ensures effects == old(effects) + SubscribeCalls(subscriptions)
    {
      var before := effects;
      for i := 0 to |subscriptions|
        invariant |effects| == |before| + i
        invariant effects[..|before|] == before
        invariant forall k :: 0 <= k < i ==> effects[|before| + k] == Subscribed(subscriptions[k])
      {
        effects := effects + [Subscribed(subscriptions[i])];
      }
      assert effects == before + SubscribeCalls(subscriptions);
    }

    /**
     * Handles one delivery: asks the router for a handler among the
     * registered routes, decodes the payload (reporting the topic when that
     * fails) and calls the handler, if one was found, whether or not
     * decoding succeeded.
     */
    method OnMessage(topic: string, raw: Bytes,
                     router: Router<H, A>, decode: Bytes -> Option<P>)
      modifies this`effects
      ensures effects == old(effects) + Delivery(routes, topic, raw, router, decode)
    {
      var found := router(routes, topic);
      var payload := decode(raw);
      if payload.None? {
        effects := effects + [ReportedInvalidJson(topic)];
      }
      if found.Some? {
        effects := effects + [Invoked(found.value.0, payload, found.value.1)];
      }
    }

    /** Marks the reactor for exit and disconnects the client. */
    method Exit()
      modifies this`shouldExit, this`effects
      ensures shouldExit
      ensures effects == old(effects) + [Disconnected]
    {
      shouldExit := true;
      effects := effects + [Disconnected];
    }

    /**
     * On connection: registers the plugin's exit route and subscribes to
     * every filter, that route's included.
     */
    method OnConnect(pluginName: string, exitHandler: H)
      requires Valid()
      modifies this`routes, this`subscriptions, this`effects
      ensures Valid()
      ensures routes == old(routes) + [(ExitRoute(pluginName), exitHandler)]
      ensures subscriptions == old(subscriptions) + [SubscriptionFilter(ExitRoute(pluginName))]
      ensures effects == old(effects) + SubscribeCalls(subscriptions)
    {
      AddGetRoute(ExitRoute(pluginName), exitHandler);
      Subscribe();
    }
  }

  /**
   * Two routes with the same filter give two equal subscriptions: the list is
   * not deduplicated, and `subscribe` subscribes twice.
   */
  method DuplicateFiltersKept<H>(x: string, y: string, first: H, second: H)
    returns (subscriptions: seq<string>, calls: seq<Effect<H, (), ()>>)
    requires PlaceholderInner(x) && PlaceholderInner(y)
    ensures subscriptions == ["a/+", "a/+"]
    ensures calls == [Subscribed("a/+"), Subscribed("a/+")]
  {
    var reactor := new BaseMqttReactor<H, (), ()>();
    reactor.AddGetRoute("a/" + Braced(x), first);
    reactor.AddGetRoute("a/" + Braced(y), second);
    reactor.Subscribe();
    subscriptions, calls := reactor.subscriptions, reactor.effects;
    SinglePlaceholderFilter(x);
    SinglePlaceholderFilter(y);
  }

  lemma SinglePlaceholderFilter(name: string)
    requires PlaceholderInner(name)
    ensures SubscriptionFilter("a/" + Braced(name)) == "a/+"
  {
    OnePlaceholderRoute("a/", name, "");
    assert "a/" + Braced(name) + "" == "a/" + Braced(name);
  }
}
