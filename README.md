# KeePass4Web front-end core, modelled in Dafny

KeePass4Web is a web front-end to KeePass databases. This project models three pieces of
its browser code and proves properties of them:

- **The session countdown** (`Timer`). A timer shows the session time left in a format
  such as `{hh}:{mm}:{ss}`. It ticks once a second. A shared one-shot restart flag, set by
  every AJAX call, starts the countdown over. When the end instant has passed, the timer
  calls `onTimeUp` once and stops.
- **The `KeePass4Web` namespace** (`app.js`). This covers:
  - the restart flag cell;
  - `localStorage` holding the CSRF token and the settings;
  - the defaults `ajax` fills into every request;
  - the login page `checkAuth` routes to when the server says the session is not
    authenticated (user, then backend, then database);
  - the generic `error` handler.
- **The group tree** (`TreeNode`). Each node component keeps its own `expanded` state.
  Children are one level deeper and are shown only while every ancestor is expanded. Each
  row has an indent count, an expand control and an icon address.

Files:
- `Wrappers.dfy` holds `Option`.
- `Text.dfy` holds the JavaScript string operations the code relies on:
  - decimal conversion of a number with `'' + n`;
  - `String.prototype.replace` with a non-global pattern, which replaces the first
    occurrence only; replacement patterns such as `$&` are not interpreted, which makes no
    difference here because the replacements are digits or `undefined`;
  - `replace(/\//g, '_')`.
- `App.dfy` holds module `KeePass4Web`.
- `Timer.dfy` holds module `Countdown`.
- `TreeNode.dfy` holds module `TreeView`.

Stateful parts are classes, with methods whose `ensures` tie the new state to a pure step
function:
- `RestartCell`, `LocalStorage`, `AjaxConf` in `App.dfy`;
- `Timer` in `Timer.dfy`;
- `TreeNode` in `TreeNode.dfy`.

The properties are proved about those step functions. The timer's life is a fold
(`Countdown.Run`) over a sequence of events: interval firings at given instants, restart
requests, and unmounting.

Modelling decisions:
- Time is an integer number of milliseconds, passed in as `now`.
- `setState` is a synchronous field update.
- `setInterval`/`clearInterval` become a `running` flag. An interval firing runs `tick`
  only while that flag is set.
- A property that is `undefined` is `None`.
- JavaScript truthiness is written out (`Truthy`, `IconTruthy`, `Or`). So are the loose
  `== 401` test and the strict `=== 'redirect'`.
- The code expires the countdown only when `end - now < 0`. At exactly the end instant it
  still shows all zeros. So with a timeout of `T` seconds, and when every firing lands
  exactly on its second after mounting, as `Countdown.ExpiresExactlyOnce` assumes,
  `onTimeUp` fires at the firing `T + 1` seconds after mounting, not at the one after `T`
  seconds. Firings that come late, even by a millisecond, already expire at second `T`
  (`Countdown.ExpiresAfterEnd` covers any firing after the end instant).
- `componentDidMount` formats `calculate(endTime)` without checking it. When that is
  `false`, each field reads as `undefined`, so the text shows `undefined`
  (`Countdown.FieldText`). The guard `if (this.state.endTime)` tests a `Date` object, which
  is always truthy, so it is not modelled.

## Model

| member | source | states |
|---|---|---|
| Text.NatToString | src/scripts/Timer.js:30 | the decimal form of a number is non-empty and all digits; it has one character exactly when the number is below 10; it has no leading zero unless the number is 0 |
| Text.DecimalRoundTrip | src/scripts/Timer.js:30 | reading the decimal form of `n` back gives `n` |
| Text.IndexOf | src/scripts/Timer.js:42-45 | the position `replace` and `test` find is a real occurrence with none before it; there is no position exactly when the pattern does not occur |
| Text.ReplaceFirst | src/scripts/Timer.js:42-45 | a non-global `replace` leaves a string without the pattern unchanged, and otherwise splices the replacement in at the first occurrence only |
| Text.ReplaceFirstAfterPlain | src/scripts/Timer.js:42-45 | text before a token that cannot start the token is left untouched by the replacement |
| Text.ReplaceChar | src/scripts/TreeNode.js:77 | `replace(/\//g, '_')` keeps the length and replaces every occurrence of the character and nothing else |
| Countdown.PadDecimal | src/scripts/Timer.js:29-34 | `pad` puts a `0` in front of a single digit and leaves longer numbers unchanged; the result has at least two digits and still reads as the same number |
| Countdown.PadExamples | src/scripts/Timer.js:29-34 | 5 pads to "05", 45 to "45", 100 to "100" |
| Countdown.Pad | src/scripts/Timer.js:29-34 | a text of length one gets a leading `0`; any other text is returned unchanged |
| Countdown.Calculate | src/scripts/Timer.js:76-84 | there is a decomposition exactly when `end - now >= 0`, so at the end instant itself the result is all zeros and not expiry |
| Countdown.CalculateDecomposes | src/scripts/Timer.js:79-82 | hours are below 24, minutes and seconds below 60, and `d*86400 + h*3600 + m*60 + s` is the whole seconds left |
| Countdown.SplitUnique | src/scripts/Timer.js:79-82 | the decomposition with those bounds is unique |
| Countdown.CalculateCharacterized | src/scripts/Timer.js:76-84 | `calculate` returns `r` exactly when time is left and `r` is the bounded decomposition of the whole seconds left |
| Countdown.EndTime | src/scripts/Timer.js:36-38 | the end instant is `now + 1000*timeout` milliseconds; a countdown from it has time left exactly when the timeout is non-negative, and then it spans exactly `timeout` seconds |
| Countdown.HasToken | src/scripts/Timer.js:58 | true exactly when the format contains at least one of `{dd}`, `{hh}`, `{mm}`, `{ss}` (predicate; no contract of its own) |
| Countdown.FieldText | src/scripts/Timer.js:40-46 | a field is substituted as its padded decimal form, or as "undefined" when the time is not there; neither contains `{` |
| Countdown.Format | src/scripts/Timer.js:40-46 | a format with none of the four tokens comes back unchanged |
| Countdown.FormatClock | src/scripts/Timer.js:40-46 | "{hh}:{mm}:{ss}" becomes padded hours, minutes and seconds joined by colons; days are not shown |
| Countdown.FormatMinutesSeconds | src/scripts/Timer.js:40-46 | "{mm}:{ss}" becomes padded minutes and seconds joined by a colon |
| Countdown.TickStep | src/scripts/Timer.js:48-74 | the restart flag is always cleared by a tick; a set flag moves the end instant to `timeout` seconds after now before the expiry check; no tokens stops the timer with no callback; a past end instant calls `onTimeUp` once and stops; otherwise the text is the formatted time left |
| Countdown.StartStep | src/scripts/Timer.js:86-88 | `tickStart` schedules the interval and changes nothing else |
| Countdown.EndStep | src/scripts/Timer.js:90-92 | `tickEnd` clears the interval and changes nothing else, so calling it on a stopped timer does nothing |
| Countdown.FireStep | src/scripts/Timer.js:87 | once the interval is cleared, its firings do nothing |
| Countdown.Constructed | src/scripts/Timer.js:4-12 | a constructed timer is not scheduled, has empty text and no callback yet, keeps the given restart flag, and with a non-negative timeout its countdown spans exactly `timeout` seconds |
| Countdown.MountStep | src/scripts/Timer.js:14-23 | mounting clears the restart flag and applies it to the end instant; the timer is left running exactly when the format has tokens and time is left; `onTimeUp` is called once exactly when the format has tokens and the end instant has passed |
| Countdown.MountAtMostOnce | src/scripts/Timer.js:14-23 | mounting calls `onTimeUp` at most once, and then the timer is stopped |
| Countdown.MountStartsCountdown | src/scripts/Timer.js:14-23 | mounting with a non-negative timeout and a format with tokens leaves the timer running, with no callback, the end instant `timeout` seconds ahead and the time left on display |
| Countdown.NegativeTimeoutExpiresAtMount | src/scripts/Timer.js:14-23 | a negative timeout expires at the tick made on mounting |
| Countdown.RunAtMostOnce | src/scripts/Timer.js:63-69 | over any sequence of firings, restart requests and unmounting, `onTimeUp` is called at most once, and never while the interval is still scheduled |
| Countdown.StoppedIsFinal | src/scripts/Timer.js:86-92 | once stopped, no event changes the end instant, the text or the callback count, or restarts the interval |
| Countdown.NoTokensNeverExpire | src/scripts/Timer.js:56-61 | a format without tokens stops at its first tick, whatever the time, and after that never calls `onTimeUp` or changes the text |
| Countdown.RestartGivesFreshCountdown | src/scripts/Timer.js:49-69 | a restart seen by a tick cannot expire in that tick: the timer shows the whole timeout and keeps running |
| Countdown.CountsDownUntilEnd | src/scripts/Timer.js:63-73 | firings up to the end instant, with no restart, keep the timer running with no callback and show the time left at the latest firing |
| Countdown.FiringBeforeEnd | src/scripts/Timer.js:63-73 | a single firing before the end instant keeps the timer running and shows the time left |
| Countdown.ExpiresAfterEnd | src/scripts/Timer.js:63-69 | a firing after the end instant, with no restart, calls `onTimeUp` and stops the timer, leaving the text |
| Countdown.ExpiresForGood | src/scripts/Timer.js:63-69 | after that firing, no later event calls `onTimeUp` again |
| Countdown.ExpiresExactlyOnce | src/scripts/Timer.js:48-84 | a timer mounted with timeout `T >= 0` and no activity runs through the firings at seconds 1..T with no callback, and the firing at second T + 1 calls `onTimeUp` once and stops it |
| Countdown.MinutesSecondsHasToken | src/scripts/Timer.js:56-61 | "{mm}:{ss}" counts as a format with tokens, so it keeps ticking |
| Countdown.MinutesSecondsAt | src/scripts/Timer.js:40-46 | with under an hour and single-digit minutes and seconds left, "{mm}:{ss}" shows each as `0` followed by its digit, joined by a colon |
| Countdown.Timer.constructor | src/scripts/Timer.js:4-12 | the new timer has empty text and its end instant `timeout` seconds from now |
| Countdown.Timer.ComponentDidMount | src/scripts/Timer.js:14-23 | the new state is `MountStep` of the old one |
| Countdown.Timer.ComponentWillUnmount | src/scripts/Timer.js:25-27 | the new state is `EndStep` of the old one |
| Countdown.Timer.Tick | src/scripts/Timer.js:48-74 | the new state of the timer and of the shared restart flag is `TickStep` of the old one |
| Countdown.Timer.TickStart | src/scripts/Timer.js:86-88 | the new state is `StartStep` of the old one |
| Countdown.Timer.TickEnd | src/scripts/Timer.js:90-92 | the new state is `EndStep` of the old one |
| Countdown.Timer.OnTimeUp | src/scripts/Timer.js:66 | the callback is counted and nothing else changes |
| Countdown.Timer.Interval | src/scripts/Timer.js:87 | an interval firing changes the state by `FireStep` |
| KeePass4Web.RestartCell.constructor | src/scripts/app.js:122 | the flag starts cleared |
| KeePass4Web.RestartCell.RestartTimer | src/scripts/app.js:123-126 | with no argument the flag is only read; with an argument it is set to it; the flag is returned |
| KeePass4Web.GetSettings | src/scripts/app.js:115-120 | the stored settings object, or `{}` when there is none |
| KeePass4Web.GetCSRFToken | src/scripts/app.js:103-105 | the stored token, or null exactly when it is missing or empty |
| KeePass4Web.WithCSRFToken | src/scripts/app.js:99-101 | after storing a token it reads back as itself, a falsy one as null; the settings and every other entry are unchanged |
| KeePass4Web.WithoutSession | src/scripts/app.js:94-97 | exactly the settings and the token entries are removed; every other entry is kept |
| KeePass4Web.MergeSettings | src/scripts/app.js:107-113 | every given key takes its new value, every other stored key keeps its old one, and there are no other keys |
| KeePass4Web.LocalStorage.ClearStorage | src/scripts/app.js:94-97 | storage becomes `WithoutSession` of what it was |
| KeePass4Web.LocalStorage.SetCSRFToken | src/scripts/app.js:99-101 | storage becomes `WithCSRFToken` of what it was |
| KeePass4Web.LocalStorage.SetSettings | src/scripts/app.js:107-113 | the stored settings become the merge; every other entry is unchanged |
| KeePass4Web.WithDefaults | src/scripts/app.js:77-87 | `url` is always set; method `POST` and dataType `json` only when absent, explicit values kept; headers created if absent, other headers kept; `X-CSRF-Token` always overwritten with the current token |
| KeePass4Web.WithDefaultsIdempotent | src/scripts/app.js:77-87 | filling in the defaults a second time changes nothing |
| KeePass4Web.AjaxConf.constructor | src/scripts/app.js:77 | the `conf` object holds exactly the url, method, dataType and headers it was given |
| KeePass4Web.Ajax | src/scripts/app.js:77-91 | the request is filled in place with the defaults and the token from storage, and the restart flag is set before it is sent |
| KeePass4Web.ErrorEffects | src/scripts/app.js:128-159 | nothing happens exactly when the request was aborted; a 401 either replaces the route with `/db_login` and then `/` with "Session expired", or alerts and reloads when there is no router; otherwise the masks are cleared first exactly when there is component state, then the alert shows the body's message or the error text, and nothing else happens |
| KeePass4Web.FirstMissing | src/scripts/app.js:43-70 | the stage returned is the first of the order that is not done: every stage before it is done; no stage returned means every stage is done |
| KeePass4Web.FirstMissingLoginOrder | src/scripts/app.js:45-70 | over user, backend, db, the first missing stage is the first failing test of the if-chain |
| KeePass4Web.Template | src/scripts/app.js:53 | `getSettings().template` is defined exactly when the settings have that key, and is its value |
| KeePass4Web.Challenge | src/scripts/app.js:34-39 | a 401 with a truthy JSON body and a truthy `message` gives that message as the authentication status; nothing else gives one |
| KeePass4Web.CheckAuth | src/scripts/app.js:34-70 | the error goes to `error` exactly when it is not a 401 with a JSON body; the user login, which clears storage, is chosen exactly when the user stage is missing; the db login exactly when user and backend are done and db is not; when backend is the first missing stage, a missing or null `template` setting raises a TypeError, type `redirect` redirects to its `url`, type `mask` routes to the backend login, and any other type gives no route; no route when every stage is done |
| KeePass4Web.OnAuthError | src/scripts/app.js:31-71 | the outcome is `CheckAuth` over the stored settings; storage is cleared exactly when routing to the user login |
| TreeView.Levels | src/scripts/TreeNode.js:11 | `levels || 3`: an absent or zero depth counts as 3 |
| TreeView.InitialExpanded | src/scripts/TreeNode.js:9-11 | a node's own `expanded` wins; otherwise a node is expanded exactly when its level is below the configured depth |
| TreeView.DefaultDepth | src/scripts/TreeNode.js:9-11 | with the default depth, levels 1 and 2 start expanded and deeper levels collapsed |
| TreeView.IndentCount | src/scripts/TreeNode.js:47-50 | one indent per level above the first, none at level 1 or below |
| TreeView.ExpandControl | src/scripts/TreeNode.js:52-73 | a toggle appears exactly when the node has a children list, showing the expand icon when collapsed and the collapse icon when expanded; otherwise the empty icon |
| TreeView.ControlFlips | src/scripts/TreeNode.js:52-73 | with default icons a click swaps plus and minus, even on an empty children list; a node without a list never changes its control |
| TreeView.Icon | src/scripts/TreeNode.js:75-81 | a non-empty custom icon uuid wins, with every `/` turned into `_` and nothing else changed; otherwise the first truthy of the node's icon, the tree's icon and 48 |
| TreeView.IconUrlKinds | src/scripts/TreeNode.js:75-81 | a custom icon address never equals a built-in one |
| TreeView.IconUrl | src/scripts/TreeNode.js:75-81 | a custom icon is addressed as `img/icon/` plus the encoded file name; a built-in one as `img/icons/` plus the encoded id plus `.png` |
| TreeView.ShowBorder | src/scripts/TreeNode.js:30 | the border is on when the option is absent, and otherwise takes the option's value |
| TreeView.StyleAsWritten | src/scripts/TreeNode.js:32-45 | as written, a visible row raises a TypeError exactly when the border is off or a colour is set; a hidden row gets `display: none` |
| TreeView.BorderlessTreeFails | src/scripts/TreeNode.js:32-45 | a visible row of a tree with the border switched off cannot be rendered as written |
| TreeView.RowStyle | src/scripts/TreeNode.js:32-45 | hidden exactly when not visible; a visible row gets `border: none` when the border is off, `1px solid` plus the colour when a colour is set, and no style otherwise |
| TreeView.StyleAgrees | src/scripts/TreeNode.js:32-45 | wherever the code as written renders, it gives the intended style |
| TreeView.Selected | src/scripts/TreeNode.js:20-25 | a click passes the node to `nodeClick` exactly when there is one |
| TreeView.Mount | src/scripts/TreeNode.js:4-13 | a mounted component holds its node and the default `expanded` for its level, with a component per child |
| TreeView.MountAll | src/scripts/TreeNode.js:86-99 | children are mounted in order, one level deeper |
| TreeView.MountLevels | src/scripts/TreeNode.js:86-99 | every component in a mounted tree chose its `expanded` for its own depth |
| TreeView.ToggleAt | src/scripts/TreeNode.js:15-18 | toggling flips the chosen component's `expanded` and keeps its node and children |
| TreeView.ToggleOnlyThat | src/scripts/TreeNode.js:15-18 | toggling keeps the shape of the tree and every other component's state |
| TreeView.ToggleShowsOnlyBelow | src/scripts/TreeNode.js:86-99 | toggling a component changes whether another is shown only when the other lies strictly below it |
| TreeView.Render | src/scripts/TreeNode.js:102-114 | the component's own row comes first, with its level, visibility, `expanded` and name; every further row lies under one of its children |
| TreeView.RenderKids | src/scripts/TreeNode.js:86-100 | the rows of the children from index `i` on each lie under a child at index `i` or later |
| TreeView.Under | src/scripts/TreeNode.js:89-98 | a child's rows keep their order and content, and their paths are prefixed with the child's index |
| TreeView.RenderFits | src/scripts/TreeNode.js:86-99 | each row stands for a component, one level deeper per step down, and is shown exactly when the rendering was shown and every ancestor is expanded |
| TreeView.KidsFit | src/scripts/TreeNode.js:86-99 | the rows of the children fit their parent the same way, one level below it |
| TreeView.RenderCovers | src/scripts/TreeNode.js:86-99 | every component of the tree has a row |
| TreeView.KidsCover | src/scripts/TreeNode.js:86-99 | every component below a child from the given index on has a row among the children's rows |
| TreeView.ViewerRoot | src/scripts/TreeViewer.js:5-20 | an absent tree gives no children; otherwise each of the tree's children is mounted in order at level 1 under an always expanded root |
| TreeView.ViewerRows | src/scripts/TreeViewer.js:5-20 | an absent tree renders no TreeNode rows |
| TreeView.ViewerShowsExpanded | src/scripts/TreeViewer.js:9-20 | in the viewer a row at depth `k` is at level `k`, and it is shown exactly when every TreeNode above it is expanded; every TreeNode of the tree has a row |
| TreeView.TreeNode.constructor | src/scripts/TreeNode.js:4-13 | a new component's `expanded` is `InitialExpanded` of its props |
| TreeView.TreeNode.ToggleExpanded | src/scripts/TreeNode.js:15-18 | `expanded` flips and the props stay as they were |
| TreeView.TreeNode.Indents | src/scripts/TreeNode.js:47-50 | `IndentCount(level)` indent keys, numbered from 0 |
| TreeView.TreeNode.ChildProps | src/scripts/TreeNode.js:86-100 | one props value per child, in order, at the next level, shown only while this one is shown and expanded |
| TreeView.TreeNode.Render | src/scripts/TreeNode.js:27-116 | the row has the intended style, the indents, the expand control, the icon and the name, and it has the children's props |

## Left out

- JSX rendering and the DOM: the `li`, `span` and `img` elements, and event propagation (`event.stopPropagation`).
- React lifecycle and `setState` batching: `setState` is a synchronous field update.
- React keys (`key={nodes[i].id}`) and reconciliation are not modelled: the component tree stays as mounted and is addressed by child position.
- The clock is read once per step: the model passes one `now` to each tick, constructor and mount. The code reads `Date.now()` separately in `endTime` (src/scripts/Timer.js:37) and in `calculate` (src/scripts/Timer.js:77), and the constructor and `componentDidMount` read it at different instants. So the claim of `Countdown.RestartGivesFreshCountdown` and `Countdown.MountStartsCountdown` that the whole timeout is shown holds only when those reads agree; one millisecond between them shows `timeout - 1` seconds. Likewise `Countdown.ExpiresExactlyOnce` takes the construction, the mount and every firing to fall exactly on whole-second marks; `setInterval` firings are normally late, and then the firing at second `T` already expires.
- Interval scheduling: `setInterval` and `clearInterval` are the `running` flag, and a firing is an explicit event.
- The return value of `jQuery.ajax` is not modelled: `Ajax` returns the request that is sent; the network call itself is left out.
- `localStorage` text and JSON serialisation are not modelled: the settings entry holds the object it parses back to.
- `encodeURIComponent` is a parameter of `TreeView.IconUrl`.
- `alert`, `location`, `location.reload` and the router's `replace` are not performed; they become effect values.
- The route `state` that checkAuth forwards to the login page (`nextState.location.state`) is not modelled.
- The body of `onTimeUp` (the session teardown in the navigation bar) is not part of this model: only its calls are counted.
- The `complete` callback that checkAuth passes on is not modelled.
- Countdown.Calculate: float rounding is not modelled: times are whole milliseconds, where JavaScript's floor of the quotient equals Dafny's division.
- TreeView.Icon: icon ids are non-negative numbers or strings; other JavaScript values in those properties are not modelled.
- TreeView.InitialExpanded: a node's `expanded` property is a boolean here; other values it could carry are not modelled.
- The viewer's own header icon and name (src/scripts/TreeViewer.js:22-38) are not part of this model.

## Findings

| source | as written | input that shows it | evidently intended | confidence | as-written member | corrected member |
|---|---|---|---|---|---|---|
| src/scripts/TreeNode.js:32-45 | `var style` stays undefined for a visible row, and `style.border = …` then throws a TypeError | a visible node in a tree whose options have `showBorder: false`, or a non-empty `borderColor` | start from an empty style object, so the row gets `border: none` or `1px solid <colour>` | not executed | TreeView.StyleAsWritten (TreeView.BorderlessTreeFails) | TreeView.RowStyle (TreeView.StyleAgrees) |
