# paho-mqtt-helpers: a Dafny model of `BaseMqttReactor`

`BaseMqttReactor` is the base class of MQTT plugins. A plugin registers
routes such as `microdrop/{device_id}/exit` with handlers. Each route goes to
a path router and is turned into a broker subscription filter
(`microdrop/+/exit`). After connecting, the reactor subscribes to every
filter. Each incoming message is dispatched to the handler the router finds,
with the JSON-decoded payload.

This project models the parts of that class that are its own logic:

- `TopicFilter` models the filter rewrite `re.sub(r"\{(.+?)\}", "+", route)`.
  `SubscriptionFilter` is a left-to-right scan. A match is a `{`, then one or
  more characters that are not newlines, then the first `}` that can close
  it. The scan emits `+` for a match and copies every other character.
  As an independent reference, a route is also read as a list of pieces:
  literal characters and placeholders. `Scanned` says the pieces are the
  ones the regular expression finds. Every route has exactly one such scan
  (`Decompose`, `ScanIsUnique`). Its filter keeps each literal character
  and turns each placeholder into one `+` (`FilterOfScan`). `+` is the
  single-level wildcard of section 4.7.1.3 of MQTT 3.1.1.
- `Reactor.BaseMqttReactor` is a class with the fields the source updates:
  the registered routes, the `subscriptions` list and `shouldExit`. A fourth
  field, `effects`, logs the calls the reactor makes on the outside world,
  in order: broker subscriptions, the disconnect, the invalid-JSON report and
  handler calls. The router's `match` and the JSON decoder are foreign
  libraries, so they are function parameters of `OnMessage`. The router is
  applied to the (route, handler) pairs registered with `AddGetRoute`, as
  the one router object of the source is filled by `add_route` and queried
  by `match`. A decoder result of `None` stands for a `ValueError`.

Behaviour of the code worth noting:
- The subscriptions are a list. A route whose filter is already there is
  appended again, and `subscribe` subscribes to it again.
- The filter is derived by the regular expression over the whole route, not
  segment by segment, and no route is rejected: `a/{x` and `{}` stay as they
  are, `{}}` and `{{x}` become `+`, and a placeholder need not fill a whole
  path segment.
- `on_message` asks the router first and decodes the payload afterwards.
  Both are pure here, so the order is not observable.
- Which route wins when several match is decided by the router library,
  outside this file, so the model does not state it.

## Model

| member | source | states |
|---|---|---|
| TopicFilter.FindClose | paho_mqtt_helpers/__init__.py:103 | the `}` found after a `{` at index 0 is the first `}` from index `k` on, with no newline before it; no result means no closing `}` exists from `k` on |
| TopicFilter.MatchEnd | paho_mqtt_helpers/__init__.py:103 | a result is where the lazy match of `\{(.+?)\}` at index 0 ends (the least closing index, which is at least 2, with no newline inside); no result means no match starts there |
| TopicFilter.SubscriptionFilter | paho_mqtt_helpers/__init__.py:102-103 | the filter is never longer than the route |
| TopicFilter.Decompose | paho_mqtt_helpers/__init__.py:103 | every route splits into literal characters and placeholders exactly as the regular expression scans it, and its filter is that split with each placeholder written as `+` |
| TopicFilter.ScanIsUnique | paho_mqtt_helpers/__init__.py:103 | two such scans of one route are equal, so the leftmost, lazy, non-overlapping scan is determined by the route |
| TopicFilter.FilterOfScan | paho_mqtt_helpers/__init__.py:102-103 | given the scan of a route, its filter replaces each placeholder by exactly one `+` and copies all other text verbatim and in order |
| TopicFilter.NoPlaceholderUnchanged | paho_mqtt_helpers/__init__.py:103 | a route without `{`, or without `}`, is its own filter (so `a/{x` stays `a/{x`) |
| TopicFilter.SameLengthOnlyIfUnchanged | paho_mqtt_helpers/__init__.py:103 | the filter is as long as the route only when it equals the route: each replacement shortens it |
| TopicFilter.PrefixCopied | paho_mqtt_helpers/__init__.py:103 | text before the first `{` is copied into the filter verbatim |
| TopicFilter.PlaceholderReplaced | paho_mqtt_helpers/__init__.py:103 | `{inner}` at the start, where `inner` is non-empty, holds no newline and has no `}` after its first character, becomes one `+` and the scan resumes right after it |
| TopicFilter.PlaceholderAfterPrefix | paho_mqtt_helpers/__init__.py:103 | a prefix without `{` followed by such a placeholder gives the prefix, then `+`, then the filter of the rest |
| TopicFilter.OnePlaceholderRoute | paho_mqtt_helpers/__init__.py:103 | a route with one placeholder and no other `{` gives the text around it with the placeholder as `+` |
| TopicFilter.DeviceExitFilter | paho_mqtt_helpers/__init__.py:102-103 | `microdrop/{name}/exit`, for example with `device_id`, gives `microdrop/+/exit` |
| TopicFilter.TwoPlaceholdersFilter | paho_mqtt_helpers/__init__.py:103 | the match is lazy: `a/{x}/{y}` gives `a/+/+`, not `a/+` |
| TopicFilter.NoMatchExamples | paho_mqtt_helpers/__init__.py:103 | empty braces `{}` and the unterminated `a/{x` are left unchanged |
| TopicFilter.BraceInsideExamples | paho_mqtt_helpers/__init__.py:103 | `.+?` may take a `}` or `{` as its first character: `{}}` and `{{x}` each become `+` |
| Reactor.SubscribeCalls | paho_mqtt_helpers/__init__.py:110-112 | one broker subscription per filter, in list order |
| Reactor.Delivery | paho_mqtt_helpers/__init__.py:142-156 | a delivery reports the topic once iff decoding fails, and has no other effects than that report and the handler call; it calls a handler iff the router found one among the registered routes, and then exactly once, as its last effect, with the decoded payload (absent if decoding failed) and the router's arguments |
| Reactor.ExitRouteIsItsFilter | paho_mqtt_helpers/__init__.py:131 | the exit route built from a URL-safe plugin name (no `{`) is its own subscription filter |
| Reactor.BaseMqttReactor.constructor | paho_mqtt_helpers/__init__.py:43-45 | a new reactor has no routes, no subscriptions and no effects, and `shouldExit` is false |
| Reactor.BaseMqttReactor.AddGetRoute | paho_mqtt_helpers/__init__.py:99-103 | the route goes to the router, and `subscriptions` grows by one entry at the end, the route's filter; earlier entries are unchanged and duplicates are kept; each subscription remains the filter of the route at its index |
| Reactor.BaseMqttReactor.Subscribe | paho_mqtt_helpers/__init__.py:110-112 | exactly one subscribe call per entry, in list order, and the list is unchanged |
| Reactor.BaseMqttReactor.OnMessage | paho_mqtt_helpers/__init__.py:142-156 | the effects of one delivery are appended, and nothing else changes |
| Reactor.BaseMqttReactor.Exit | paho_mqtt_helpers/__init__.py:168-170 | `shouldExit` becomes true and the client is disconnected |
| Reactor.BaseMqttReactor.OnConnect | paho_mqtt_helpers/__init__.py:130-133 | the plugin's exit route is registered, and then every subscription, that route's filter included, is subscribed to in order |
| Reactor.DuplicateFiltersKept | paho_mqtt_helpers/__init__.py:99-112 | registering `a/{x}` and `a/{y}` leaves two `a/+` entries and two subscribe calls for `a/+` |
| Reactor.SinglePlaceholderFilter | paho_mqtt_helpers/__init__.py:103 | `a/{name}` gives `a/+` |

## Left out

- Route matching by `wheezy.routing.PathRouter` is foreign code. Its `match` is a function parameter of `OnMessage`, so nothing is said about segment counts, parameter extraction or precedence. `AddGetRoute` only records the (route, handler) pair handed to the router.
- JSON decoding with `pandas_object_hook` is foreign code and is a function parameter. Only `ValueError` is caught by the source; any other exception from the decoder is not modelled.
- `sendMessage` is left out: it is JSON encoding by a foreign encoder followed by a network publish.
- The MQTT client is left out: connecting, `start`, `stop`, the loop, and the reconnect-or-`sys.exit` logic of `on_disconnect`. Only the subscribe and disconnect calls appear, as entries in `effects`.
- The `host`, `port` and `keepalive` setters are left out: each stores a value and then reconnects over the network.
- `plugin_path`, `plugin_name`, `url_safe_plugin_name` and `client_id` are left out: they use the filesystem, `quote_plus` and the clock. `OnConnect` takes the URL-safe plugin name as a parameter.
- Reactor.BaseMqttReactor.OnConnect: the call to `listen()` is not modelled. It is a hook for subclasses and is not defined in this file.
- Reactor.BaseMqttReactor.OnMessage: a payload that is the JSON `null` decodes successfully and reaches the handler as Python `None`, which the handler cannot tell from a failed decode; the model passes it as `Some(v)`, keeping the two cases apart.
- Reactor.BaseMqttReactor.OnMessage: the two printed lines for invalid JSON are one `ReportedInvalidJson(topic)` effect. A handler that raises is not modelled, because handlers are opaque values and only their invocation is recorded. The source tests `if method:`; the model assumes a handler the router returns is always truthy, as Python functions are.
- Registering the SIGINT handler in `start` is left out, because it is OS signal handling.
