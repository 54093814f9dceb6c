# Raycast extensions: snake engine and helper logic, modelled in Dafny

This project models the game engine of the Raycast snake extension, plus the small helpers around the network and UI code of several other extensions. It proves properties of each.

- **Snake** (`snake.dfy`, module `SnakeGame`). There are three classes, as in the engine:
  - `Field` is the 100 × 18 cell buffer.
  - `Snake` holds the head, the trail of body coordinates and the body length.
  - `Game` is the controller. It turns the snake, moves it one tick, counts food, ramps up the speed and spawns food.
  - The text rendering of the board is specified by functions. Its layout is proved cell by cell.
  - The React setters become fields holding the last value passed.
  - The random generator is replaced by the sequence of coordinates it would draw.
- **Weather** (`wttr.dfy`, `weather_utils.dfy`):
  - the wttr.in query string and request URL;
  - the HTTP status classification;
  - the extractors for the current conditions and the nearest area;
  - the clean-up of error messages;
  - the UV-index colour bands.
- **Speedtest** (`speedtest.dfy`): the handler that folds the JSON events of the speedtest CLI into the mutable `Result` record, and the callbacks it fires.
- **GitLab** (`gitlab_issues.dfy`):
  - the request parameters of an issue search, built from a tokenized query (named and negated tokens);
  - the navigation title;
  - the project URL taken out of an issue URL.
- **Home Assistant**:
  - state search and entity icons (`ha_states.dfy`);
  - service calls and the form fields derived from a service's selectors (`ha_services.dfy`);
  - the service naming and quicklink helpers (`ha_service_utils.dfy`);
  - the menu-bar submenu title (`ha_menu.dfy`).
- **Google Calendar** (`calendar_api.dfy`):
  - the start of an event;
  - the merging and stable sorting of all calendars' events;
  - the grouping of events by day.
- **Twitter** (`twitter_api.dfy`): the cached account of the signed-in user, and the re-fetch of tweets that keeps the list's order.
- **Visual Studio Code** (`vscode_gallery.dfy`): the marketplace search:
  - extension ids;
  - the total result count;
  - the installed check;
  - the list icon;
  - the query gate.
- **YouTube** (`youtube_video.dfy`): the watch URL and the shortened list title.

Shared helpers:
- `wrappers.dfy`: `Option`.
- `strings.dfy`: `join`, `startsWith`, `indexOf`, ASCII lower-casing and trimming.
- `sequences.dfy`: order-preserving subsequences.

## Model

| member | source | states |
|---|---|---|
| SnakeGame.ReverseStepReturns | extensions/snake/src/lib/game.ts:8-10 | Moving by a direction and then by its opposite returns to the start, and the opposite of the opposite is the direction itself |
| SnakeGame.Field.constructor | extensions/snake/src/lib/game.ts:68-74 | A new field is 100 wide and 18 high, and every cell is empty |
| SnakeGame.Field.ClearField | extensions/snake/src/lib/game.ts:76-82 | Replaces the buffer with a fresh one of width × height cells, all empty |
| SnakeGame.Field.IsValidCoord | extensions/snake/src/lib/game.ts:84-92 | Valid exactly when 0 ≤ x < width and 0 ≤ y ≤ height; row y = height is accepted although its index lies past the buffer |
| SnakeGame.IndexInRange | extensions/snake/src/lib/game.ts:94-96 | Every on-board coordinate maps to an index inside the buffer |
| SnakeGame.Field.Indices | extensions/snake/src/lib/game.ts:94-96 | Maps every coordinate of a list to its row-major index |
| SnakeGame.Field.ValueIn | extensions/snake/src/lib/game.ts:98-101 | Reading a cell yields a value exactly when the index lies in the buffer (else JavaScript's undefined), and that value is the cell at the index |
| SnakeGame.Field.SetValue | extensions/snake/src/lib/game.ts:103-106 | Writes one cell at the coordinate's index and leaves every other cell unchanged |
| SnakeGame.Field.IsFieldFull | extensions/snake/src/lib/game.ts:108-115 | The loop answers true exactly when no cell is empty |
| SnakeGame.Field.ToString | extensions/snake/src/lib/game.ts:117-135 | The nested loop builds exactly the rendering `Rendered` of the current cells |
| SnakeGame.Field.RowString | extensions/snake/src/lib/game.ts:120-132 | The inner loop builds row y: width + 2 characters, walls on the border |
| SnakeGame.RowAt | extensions/snake/src/lib/game.ts:120-131 | A row has one character per column, each the cell's symbol or a wall on the border |
| SnakeGame.LinesLength | extensions/snake/src/lib/game.ts:119-133 | Each rendered line takes width + 3 characters: the row plus its newline |
| SnakeGame.LinesAt | extensions/snake/src/lib/game.ts:119-133 | Character k of line r is the symbol of column k − 1 on row r − 1, or the newline at the end |
| SnakeGame.RenderedPos | extensions/snake/src/lib/game.ts:117-135 | The index in the rendering of a board position lies within the rendering |
| SnakeGame.RenderedLayout | extensions/snake/src/lib/game.ts:117-135 | The rendering is 1 + (height + 2)(width + 3) characters long, shows every cell's symbol at its position, walls around the board, and ends each line in a newline |
| SnakeGame.Snake.constructor | extensions/snake/src/lib/game.ts:29-37 | A new snake has its head at the start position, no body and length 3 |
| SnakeGame.Snake.DrawBody | extensions/snake/src/lib/game.ts:54-58 | Paints the symbol on the index of every body coordinate and nowhere else |
| SnakeGame.PaintAt | extensions/snake/src/lib/game.ts:54-58 | After painting, a cell holds the symbol exactly when its index is among the painted ones, and otherwise keeps its value |
| SnakeGame.ShiftedShape | extensions/snake/src/lib/game.ts:60-61 | The new trail is the old head followed by the old body, cut to the body length |
| SnakeGame.StepCellsAt | extensions/snake/src/lib/game.ts:52-63 | After a step a cell is snake if it is on the new body or is the new head, empty if it was only on the old body, and unchanged otherwise |
| SnakeGame.Snake.TakeStep | extensions/snake/src/lib/game.ts:52-63 | Marks the new head, erases the old body, shifts the trail and redraws it; the head moves to the new position and every snake coordinate stays marked on the field |
| SnakeGame.Snake.EatFood | extensions/snake/src/lib/game.ts:43-46 | Eating grows the body by one, increases the food count, steps the speed, updates the score, announces a win on a full field and spawns food on one empty cell |
| SnakeGame.Snake.Move | extensions/snake/src/lib/game.ts:39-64 | Under the corrected step rule: on a crash only the game-over message changes; on an advance the snake steps and nothing else changes; on food the snake eats and then steps. The game invariant is kept |
| SnakeGame.AdvanceStaysOnField | extensions/snake/src/lib/game.ts:42-50 | A step that is neither food nor a crash lands on an empty cell inside the board |
| SnakeGame.FoodWrapLeavesBoard | extensions/snake/src/lib/game.ts:43-47 | As written: with food at index 600, a head at (99, 5) moving right is classified as eating although (100, 5) is off the board |
| SnakeGame.ClassifyChecked | extensions/snake/src/lib/game.ts:43-50 | Corrected rule: only an on-board coordinate can be eaten or entered, and food is eaten exactly when the on-board target holds food |
| SnakeGame.ClassifyCheckedAgreesOnField | extensions/snake/src/lib/game.ts:42-50 | The corrected rule agrees with the engine on every on-board coordinate and crashes everywhere else |
| SnakeGame.FirstEmptyDraw | extensions/snake/src/lib/game.ts:225-234 | Food goes on the first drawn coordinate whose cell is empty; there is none exactly when no draw hits an empty cell |
| SnakeGame.SpawnedChangesOneEmptyCell | extensions/snake/src/lib/game.ts:225-234 | Spawning changes at most one cell, only from empty to food, and changes one exactly when some draw hits an empty cell |
| SnakeGame.FullFieldNeverSpawns | extensions/snake/src/lib/game.ts:220-234 | On a full field no draw finds a place and the field stays as it is |
| SnakeGame.SpeedStep | extensions/snake/src/lib/game.ts:209-218 | The new delay is the old one less 20 ms, or 10 ms when that would go below 10 ms; the speed level rises by one exactly when the full 20 ms drop fits |
| SnakeGame.SpeedRamp | extensions/snake/src/lib/game.ts:207-223 | After n meals from the start values (200 ms, level 1) the delay is max(10, 200 − 20n) and the level is 1 + min(n, 9) |
| SnakeGame.Game.constructor | extensions/snake/src/lib/game.ts:138-161 | A new game has an empty field, a snake at (2, 2) of length 3, direction right, no food, 1000 ms and speed 1 |
| SnakeGame.Game.Flush | extensions/snake/src/lib/game.ts:163-165 | The shown field becomes the rendering of the current cells |
| SnakeGame.Game.Start | extensions/snake/src/lib/game.ts:167-176 | Clears the field, places a new snake, resets the food count, speed and delay (200 ms), clears the error, publishes a zero score and spawns food; the direction and the message are left as they were |
| SnakeGame.Game.Move | extensions/snake/src/lib/game.ts:178-205 | The direction changes to the requested one unless that is the opposite of the current direction |
| SnakeGame.Game.IncreaseFood | extensions/snake/src/lib/game.ts:207-223 | Increments the food count, steps the delay and speed, publishes the score, and sets the win message exactly when the field is full |
| SnakeGame.Game.SpawnFood | extensions/snake/src/lib/game.ts:225-234 | The field becomes the result of placing food at the first empty drawn cell |
| SnakeGame.Game.Draw | extensions/snake/src/lib/game.ts:236-260 | Moves the snake one cell in the current direction (corrected step rule), keeps the direction and the game invariant, and shows the rendering of the new field. A crash keeps the board, the length, the score and the speed, and shows the game-over message. A plain step keeps length, food count, speed, score and message. Eating lengthens the snake by one, counts the food, speeds up by one step, shows the new score, spawns food, and shows the win message on a full board. Every non-crash step moves the head to the next cell and shifts the body, and the board is the old one with the old body cleared and the new head and body drawn |
| SnakeGame.Game.Stop | extensions/snake/src/lib/game.ts:263-268 | Afterwards no timer is pending |
| Wttr.ParamItems | extensions/weather/src/wttr.ts:112-115 | One `key=encodeURI(value)` item per parameter, in order |
| Wttr.ParamString | extensions/weather/src/wttr.ts:110-121 | The loop builds the query string: empty with no parameters, else "?" and the items joined by "&" |
| Wttr.QueryStringSnoc | extensions/weather/src/wttr.ts:110-121 | Adding one parameter to a non-empty list appends "&" and its item to the query string |
| Wttr.FetchUrl | extensions/weather/src/wttr.ts:162-167 | The request URL is the base, "/", the city or nothing, then the query string |
| Wttr.WeatherParams | extensions/weather/src/wttr.ts:184-189 | `format=j1` always comes first; `lang` is added exactly when the language is one of en, de, fr |
| Wttr.WeatherQuery | extensions/weather/src/wttr.ts:182-190 | The weather query string is `?format=j1`, plus `&lang=…` exactly for a supported language |
| Wttr.WeatherUrl | extensions/weather/src/wttr.ts:182-190 | The full URL `getWeather` requests, spelled out for both cases of the language |
| Wttr.ToJsonOrError | extensions/weather/src/wttr.ts:123-159 | Parsed only for a 2xx status with a valid body. Fixed messages for 401, 403 and 404. The body's message for other 4xx. The server-side message for 5xx. The invalid-JSON error where the body is read but is not JSON. `http status` otherwise |
| Wttr.Fetch | extensions/weather/src/wttr.ts:164-180 | Succeeds exactly when the classification does. A failure is re-thrown as `Error(error)`, which reads "Error: " and the classification message, or only "Error" when that message is empty |
| Wttr.CurrentHumidity | extensions/weather/src/wttr.ts:217-228 | Nothing without conditions or with a missing or empty humidity; otherwise the value, "%" and "value %" |
| Wttr.CurrentWindConditions | extensions/weather/src/wttr.ts:230-251 | Nothing when the conditions, the speed, the degree or the 16-point direction is missing or empty. Otherwise all five parts; the icon is the direction icon of the degree, or "?" when that icon is empty |
| Wttr.FirstValue | extensions/weather/src/wttr.ts:275-284 | The first element's value, and nothing for an absent or empty list |
| Wttr.GetAreaValues | extensions/weather/src/wttr.ts:266-293 | Nothing without an area; otherwise the first value of each name list, and latitude, longitude and population as given |
| WeatherUtils.GetErrorMessage | extensions/weather/src/utils.ts:3-14 | "Unknown Error" for a non-Error. The message itself when it does not start with "Error: ". Otherwise the piece between the first and second "Error: " |
| WeatherUtils.ErrorPrefixRoundTrip | extensions/weather/src/utils.ts:3-14 | Prefixing "Error: " to a message that does not contain it and cleaning it up gives the message back |
| WeatherUtils.FetchErrorShown | extensions/weather/src/utils.ts:3-14 | A failed wttr.in request with a non-empty message shows the classification's own message, without the re-throw's prefix |
| WeatherUtils.FetchEmptyErrorShown | extensions/weather/src/wttr.ts:177-179 | A failed wttr.in request with an empty message shows "Error" |
| WeatherUtils.MissingMessageShownAsError | extensions/weather/src/wttr.ts:148-152 | A 400 answer whose body has no message shows "Error" |
| WeatherUtils.Band | extensions/weather/src/utils.ts:16-33 | The thresholds 3, 6, 8 and 11 split the index into five bands; NaN is low |
| WeatherUtils.BandMonotone | extensions/weather/src/utils.ts:16-33 | A higher index never falls into a lower band |
| WeatherUtils.BandColorsDistinct | extensions/weather/src/utils.ts:16-33 | The five bands have five different colours |
| WeatherUtils.UVIndexIcon | extensions/weather/src/utils.ts:35-42 | No icon for a missing or blank reading; otherwise the reading drawn on its band's colour |
| SpeedTest.Bandwidth | extensions/speedtest/src/lib/speedtest.ts:37 | A zero or missing bandwidth becomes undefined; any other value is kept |
| SpeedTest.Apply | extensions/speedtest/src/lib/speedtest.ts:31-52 | Each event kind writes exactly its own fields and fires its callback: download and upload write one bandwidth and fire progress; testStart writes the ISP and server; ping writes the latency; result writes all three and fires the final callback; other kinds change nothing |
| SpeedTest.LocationNeverWritten | extensions/speedtest/src/lib/speedtest.ts:21-52 | No sequence of events ever writes the location |
| SpeedTest.OneCallbackPerNotifyingEvent | extensions/speedtest/src/lib/speedtest.ts:31-52 | Exactly one callback fires per download, upload and result event, and none for other events |
| SpeedTest.IspOnlyFromTestStart | extensions/speedtest/src/lib/speedtest.ts:40-42 | Without a testStart event the ISP and the server name never change |
| SpeedTest.Run.constructor | extensions/speedtest/src/lib/speedtest.ts:21 | The result starts with every field undefined and no callbacks fired |
| SpeedTest.Run.Step | extensions/speedtest/src/lib/speedtest.ts:31-52 | The handler updates the record in place as `Apply` says and appends the callback it fires |
| GitLabIssues.TargetKey | extensions/gitlab/src/components/issues.tsx:267-292 | label writes labels and milestone writes milestone. author and assignee write their `_username` key only in the `all` scope. Other names write nothing |
| GitLabIssues.WrittenKey | extensions/gitlab/src/components/issues.tsx:262-293 | A token writes exactly when its value is truthy and its name has a target key, under the prefixed key |
| GitLabIssues.WrittenKeyShape | extensions/gitlab/src/components/issues.tsx:263-265 | A negated token writes under `not[…]`, a positive one under one of the four bare keys |
| GitLabIssues.InjectedFrame | extensions/gitlab/src/components/issues.tsx:254-295 | A key that no token writes keeps its presence and its value |
| GitLabIssues.InjectedLastWins | extensions/gitlab/src/components/issues.tsx:261-294 | A written key holds the values of the last token that writes it, joined with "," |
| GitLabIssues.InjectedSplit | extensions/gitlab/src/components/issues.tsx:261-294 | Injecting two runs of tokens is the same as injecting their concatenation |
| GitLabIssues.RequestParams.constructor | extensions/gitlab/src/components/issues.tsx:334-339 | The base parameters are state, scope, the query or "", and `in: title` |
| GitLabIssues.InjectQueryNamedParameters | extensions/gitlab/src/components/issues.tsx:254-295 | The loop updates the record in place to the result of injecting the positive or the negated tokens in key order |
| GitLabIssues.BaseKeysNeverWritten | extensions/gitlab/src/components/issues.tsx:267-292 | No token ever writes state, scope, search or in |
| GitLabIssues.SearchRequestParams | extensions/gitlab/src/components/issues.tsx:332-341 | The search parameters are the base ones with the positive and then the negated tokens injected; the four base keys keep their values |
| GitLabIssues.NavTitle | extensions/gitlab/src/components/issues.tsx:202-210 | A group wins over a project; with neither there is no title |
| GitLabIssues.ProjectWebUrl | extensions/gitlab/src/components/issues.tsx:126-131 | The text before the first "/-/", when that occurrence lies past index 1; nothing otherwise |
| HAStates.Filter | extensions/homeassistant/src/components/states.tsx:555-565 | Keeps exactly the states that pass, and no more of them than the input has |
| HAStates.FilterIsSubsequence | extensions/homeassistant/src/components/states.tsx:555-565 | Filtering keeps the input order |
| HAStates.FilterIf | extensions/homeassistant/src/components/states.tsx:554-566 | A switched-off stage is the identity; a switched-on one filters |
| HAStates.Limit | extensions/homeassistant/src/components/states.tsx:567 | The first 100 states of the input, or the whole input when it is shorter |
| HAStates.Matching | extensions/homeassistant/src/components/states.tsx:553-566 | The three stages keep, in order, exactly the states that pass the domain, device-class and query filters that are switched on |
| HAStates.StateSearch | extensions/homeassistant/src/components/states.tsx:551-572 | No states give an empty list. Otherwise at most 100 matching states in input order. A list shorter than 100 holds every matching state. The list is the first 100 states that pass the domain, device-class and query filters |
| HAStates.BatteryIcon | extensions/homeassistant/src/components/states.tsx:80-88 | A reading from 0 to 109 picks the table entry of its tenth; anything else keeps the full-battery image |
| HAStates.BatteryTint | extensions/homeassistant/src/components/states.tsx:89-94 | Red up to 20, yellow up to 30, the primary colour above that or for NaN |
| HAStates.LowBatteryShowsRed | extensions/homeassistant/src/components/states.tsx:80-94 | A reading from 0 to 20 shows one of the three lowest images, in red |
| HAStates.DeviceClassIcon | extensions/homeassistant/src/components/states.tsx:76-102 | No icon without a device class. The battery image and tint for a battery. Otherwise the class's image (or "entity.png") in the primary colour |
| HAStates.GetIcon | extensions/homeassistant/src/components/states.tsx:104-127 | The first matching entity-id prefix decides the icon: light (group bulb or bulb, tinted by state), person, cover (by state), automation, climate, media player. Other entities get the device-class icon or "entity.png" |
| HAServices.DomainCalls | extensions/homeassistant/src/components/services/hooks.tsx:21-23 | One entry per service of a domain, in order, named and described by the service's name |
| HAServices.FlattenedShape | extensions/homeassistant/src/components/services/hooks.tsx:19-25 | The flattened list has one entry per service of every domain, each described by its own name |
| HAServices.FlattenedComplete | extensions/homeassistant/src/components/services/hooks.tsx:19-25 | Every service of every domain that has services appears in the list |
| HAServices.ServiceCalls | extensions/homeassistant/src/components/services/hooks.tsx:15-28 | The loops build the flattened list; a missing response gives an empty list |
| HAServices.FieldKind | extensions/homeassistant/src/components/services/hooks.tsx:88-310 | The first selector kind in the order of the if-chain. None when there is no selector or only the boolean one, which no branch handles |
| HAServices.FieldType | extensions/homeassistant/src/components/services/hooks.tsx:88-310 | The type name of that kind, never the target-entity type |
| HAServices.DerivedFields | extensions/homeassistant/src/components/services/hooks.tsx:69-111 | The entity-id field comes first exactly when the service targets entities |
| HAServices.FieldsFromNoEntityId | extensions/homeassistant/src/components/services/hooks.tsx:87-310 | No field of the map yields the target-entity type |
| HAServices.FieldsFromAppend | extensions/homeassistant/src/components/services/hooks.tsx:87-311 | The derived fields keep the order of the field map |
| HAServices.FieldsFromOrigin | extensions/homeassistant/src/components/services/hooks.tsx:87-311 | Each derived field comes from a field of the map with the same key and metadata and a typed selector |
| HAServices.FieldsFromCount | extensions/homeassistant/src/components/services/hooks.tsx:87-311 | There are as many derived fields as fields with a typed selector, and never more than fields |
| HAServices.ObjectValidator | extensions/homeassistant/src/components/services/hooks.tsx:102-110 | As written: the object validator never reports an error |
| HAServices.ObjectValidatorAcceptsInvalidYaml | extensions/homeassistant/src/components/services/hooks.tsx:102-110 | A non-blank value that is not YAML passes the written validator but fails the intended one |
| HAServices.YamlObjectValidator | extensions/homeassistant/src/components/services/hooks.tsx:102-110 | Corrected: blank input passes, and a non-blank value is rejected with "No valid yaml" exactly when it is not YAML |
| HAServices.Validate | extensions/homeassistant/src/components/services/hooks.tsx:80-307 | Only object fields ever report an error. An object field reports one exactly when its value is non-blank and not YAML |
| HAServices.FindField | extensions/homeassistant/src/components/services/hooks.tsx:57 | The first field with the key, and none exactly when no field has it |
| HAServices.DeriveFields | extensions/homeassistant/src/components/services/hooks.tsx:69-311 | The loop builds exactly the derived form fields |
| HAServices.ServiceCallForm.constructor | extensions/homeassistant/src/components/services/hooks.tsx:49-53 | The form starts with no fields, no user data and no errors |
| HAServices.ServiceCallForm.Rebuild | extensions/homeassistant/src/components/services/hooks.tsx:65-315 | Without a service call nothing changes; otherwise the fields are derived anew and the user data and errors are reset |
| HAServices.ServiceCallForm.SetUserDataByKey | extensions/homeassistant/src/components/services/hooks.tsx:55-63 | Stores the value. The error of a known field becomes that field's validation result. For an unknown key the errors stay as they are |
| HAServiceUtils.FullServiceName | extensions/homeassistant/src/components/services/utils.ts:85-87 | Domain, a dot, then the service |
| HAServiceUtils.FullServiceNameSplits | extensions/homeassistant/src/components/services/utils.ts:85-87 | A dot-free domain is recovered as the text before the first dot, and the service as the rest |
| HAServiceUtils.FieldName | extensions/homeassistant/src/components/services/utils.ts:89-94 | The field's own name, untrimmed, unless it is missing or blank; then the fallback |
| HAServiceUtils.Quicklink | extensions/homeassistant/src/components/services/utils.ts:103-107 | The fixed deep-link prefix followed by the encoded JSON of the payload |
| HAMenu.Printed | extensions/homeassistant/src/components/menu.tsx:40 | `join` prints an undefined element as nothing |
| HAMenu.JoinNonEmpty | extensions/homeassistant/src/components/menu.tsx:36-41 | Nothing for a missing or empty list; otherwise the parts joined by the separator, "," when none is given |
| HAMenu.FilterTruthy | extensions/homeassistant/src/components/menu.tsx:53 | Only defined, non-empty parts remain |
| HAMenu.FilterTruthyKeepsTruthy | extensions/homeassistant/src/components/menu.tsx:53 | The result is a subsequence of the input and keeps every defined, non-empty part |
| HAMenu.Separator | extensions/homeassistant/src/components/menu.tsx:50 | The given separator when non-empty, else "\|"; never empty |
| HAMenu.SubmenuTitleJoin | extensions/homeassistant/src/components/menu.tsx:50-55 | The title is the title (when non-empty) followed by a space and the joined separator-and-subtitle part |
| HAMenu.SubmenuTitleLayout | extensions/homeassistant/src/components/menu.tsx:50-55 | The title is "title sep subtitle", with the empty title and the missing or empty subtitle left out together with their spaces |
| HAMenu.SubmenuTitleHasSeparator | extensions/homeassistant/src/components/menu.tsx:50-55 | The title is never empty and always contains the separator |
| CalendarApi.StartOfEvent | extensions/google-calendar/src/lib/api.ts:63-73 | The date-time when set, else the date, else nothing (also for a missing event or start) |
| CalendarApi.GroupIndex | extensions/google-calendar/src/lib/api.ts:107 | The position of the first group of the day, or the number of groups when there is none |
| CalendarApi.GroupedDistinct | extensions/google-calendar/src/lib/api.ts:100-111 | No day has two groups |
| CalendarApi.GroupedDay | extensions/google-calendar/src/lib/api.ts:100-111 | A day has a group exactly when some dated event falls on it, and that group holds exactly those events, in input order |
| CalendarApi.OnDayContains | extensions/google-calendar/src/lib/api.ts:101-109 | Every event with a start is among the events of its day |
| CalendarApi.GroupedShape | extensions/google-calendar/src/lib/api.ts:96-113 | The days are distinct, each group is non-empty and holds the events of its day in input order, and every dated event is in its day's group |
| CalendarApi.GroupEventsByDay | extensions/google-calendar/src/lib/api.ts:96-113 | Nothing for a missing or empty list; otherwise the loop builds the grouping above |
| CalendarApi.Tagged | extensions/google-calendar/src/lib/api.ts:79-81 | Each item of a calendar, in order, tagged with that calendar; none when the items are missing |
| CalendarApi.AllEventsComplete | extensions/google-calendar/src/lib/api.ts:78-84 | Every item of every calendar is among the merged events, with its own calendar |
| CalendarApi.AllEventsSound | extensions/google-calendar/src/lib/api.ts:78-84 | Every merged event is an item of a calendar with that calendar |
| CalendarApi.MergeCalendars | extensions/google-calendar/src/lib/api.ts:77-84 | The loop concatenates the tagged items of each calendar, calendar after calendar |
| CalendarApi.StartKey | extensions/google-calendar/src/lib/api.ts:85-87 | The sort key is the start, or 2099 ms for an event without one |
| CalendarApi.InsertionPoint | extensions/google-calendar/src/lib/api.ts:86-88 | Insertion goes after every element whose key is not larger, and before the larger ones |
| CalendarApi.InsertAtPoint | extensions/google-calendar/src/lib/api.ts:86-88 | Inserting places the event at that point and leaves the rest in order (stability) |
| CalendarApi.InsertPermutes | extensions/google-calendar/src/lib/api.ts:86-88 | Inserting adds exactly the new event |
| CalendarApi.InsertSorted | extensions/google-calendar/src/lib/api.ts:86-88 | Inserting into a sorted list keeps it sorted |
| CalendarApi.SortByProperties | extensions/google-calendar/src/lib/api.ts:86-88 | The sort orders by key and is a permutation of its input |
| CalendarApi.SortEvents | extensions/google-calendar/src/lib/api.ts:86-88 | The loop sorts by insertion, giving a sorted permutation of the events |
| CalendarApi.GetEvents | extensions/google-calendar/src/lib/api.ts:75-89 | All calendars' events, each exactly once, in order of start |
| TwitterApi.AccountSession.constructor | extensions/twitter/src/twitterapi.ts:22 | The cache starts empty and no request has been made |
| TwitterApi.AccountSession.LoggedInUserAccount | extensions/twitter/src/twitterapi.ts:24-30 | A cached account is returned without a request. Otherwise the fetched account is cached and returned, after exactly one request |
| TwitterApi.Ids | extensions/twitter/src/twitterapi.ts:34 | The id of each tweet, in order |
| TwitterApi.FindById | extensions/twitter/src/twitterapi.ts:39 | The first answered tweet with the id; none exactly when no tweet has it |
| TwitterApi.ReorderedFromAnswer | extensions/twitter/src/twitterapi.ts:37-43 | The refreshed list is no longer than the ids and holds only answered tweets for requested ids |
| TwitterApi.ReorderedKeepsOrder | extensions/twitter/src/twitterapi.ts:37-43 | The refreshed tweets appear in the order of the original list |
| TwitterApi.ReorderedComplete | extensions/twitter/src/twitterapi.ts:37-43 | Every requested id that the server answered for is in the refreshed list |
| TwitterApi.RefreshTweets | extensions/twitter/src/twitterapi.ts:32-48 | Nothing without a list; otherwise the loop builds the reordered answer |
| VSCodeGallery.Find | extensions/visual-studio-code/src/installextension.tsx:107 | The first element that satisfies the predicate; none exactly when none does |
| VSCodeGallery.FullExtensionID | extensions/visual-studio-code/src/installextension.tsx:86-88 | Publisher name, a dot, extension name |
| VSCodeGallery.FullExtensionIDSplits | extensions/visual-studio-code/src/installextension.tsx:86-88 | A dot-free publisher name is recovered as the text before the first dot, and the extension name as the rest |
| VSCodeGallery.TotalResultCount | extensions/visual-studio-code/src/installextension.tsx:149-161 | The count of the first TotalCount item of the first ResultCount metadata of the first result; nothing exactly when any of them is missing |
| VSCodeGallery.TotalCountOnlyFirstResult | extensions/visual-studio-code/src/installextension.tsx:153 | Later results never change the count |
| VSCodeGallery.InstalledIDs | extensions/visual-studio-code/src/installextension.tsx:115 | The installed ids lower-cased, and none when the local list is missing |
| VSCodeGallery.AlreadyInstalled | extensions/visual-studio-code/src/installextension.tsx:115-116 | Installed exactly when some local id equals the full id, ignoring case |
| VSCodeGallery.AlreadyInstalledIgnoresCase | extensions/visual-studio-code/src/installextension.tsx:115-116 | Ids that differ only in case are installed or not together |
| VSCodeGallery.IconURI | extensions/visual-studio-code/src/installextension.tsx:102-111 | The source of the first default-icon file of the newest version; nothing without versions or such a file |
| VSCodeGallery.ListIcon | extensions/visual-studio-code/src/installextension.tsx:121 | The icon URI when non-empty, else "icon.png"; never empty |
| VSCodeGallery.GalleryQueryGate | extensions/visual-studio-code/src/installextension.tsx:231-239 | The query runs exactly for a non-empty search text, and reports loading only when it runs |
| YouTubeVideo.VideoUrl | extensions/youtube/src/components/video.tsx:21-26 | No URL for a missing or empty id; otherwise the watch prefix followed by the id |
| YouTubeVideo.VideoIdOf | extensions/youtube/src/components/video.tsx:21-26 | An id read back from a URL rebuilds that URL |
| YouTubeVideo.VideoUrlRoundTrip | extensions/youtube/src/components/video.tsx:21-26 | Every URL produced gives back its id, so different ids give different URLs |
| YouTubeVideo.DisplayTitle | extensions/youtube/src/components/video.tsx:147-149 | A title of up to 70 characters is shown as is; a longer one is cut to 70 and gets " ..." |
| YouTubeVideo.DisplayTitleBounds | extensions/youtube/src/components/video.tsx:147-149 | The shown title has at most 74 characters, starts with the title's first characters, and ends in " ..." when cut |
| YouTubeVideo.LongTitlesCollide | extensions/youtube/src/components/video.tsx:147-149 | Long titles that agree on their first 70 characters are shown the same |

## Left out

- Snake, `getRandomInt`: `extensions/snake/src/lib/utils.ts` is not part of this model. The random start position is a parameter; `Game.Start` requires it to lie in the ranges the call passes. Food positions are a finite sequence of draws.
- SnakeGame.Game.SpawnFood: the source loops until it hits an empty cell, forever on a full field. The model takes the finite sequence of draws, and leaves the field unchanged when no draw hits an empty cell.
- SnakeGame.Game.Start: in the source, `start` neither clears the message nor resets the direction. The model follows the code, which differs from the written description of a restart.
- Snake: the React setters and the timer are modelled as fields holding the last value set. The timer's scheduling (`setTimeout` in the caller) is not modelled. `draw`'s `try`/`catch` is not modelled, because no operation in the model throws.
- SnakeGame.Field.SetValue: requires an index inside the buffer. A JavaScript array would grow on a write past the end; no move of the model writes there.
- SnakeGame.Snake.Move: uses the corrected step rule of Findings, which adds `isValidCoord` to the food test. On the wrap-around input the source instead eats the food at the start of the next row and puts the head off the board. The as-written rule is `SnakeGame.Classify`.
- Strings: JavaScript strings are UTF-16. Here a string is a sequence of `char`, and lower-casing and trimming are defined on ASCII letters and ASCII white space only.
- Numbers: floating-point readings (battery level, UV index, bandwidth, latency) are modelled as integers, with `None` standing for NaN or undefined. `Math.floor(v / 10)` on a fractional reading is not modelled.
- HAStates.MatchesQuery: every state is taken to have a `friendly_name`; a state without one makes the source throw, which is not modelled.
- CalendarApi.GetEvents: the comparator subtracts `getTime()` values; NaN dates are not modelled. `stringToDate` and `extractDateString` are parameters. Each group keeps its day key as a string rather than turning it back into a `Date`.
- CalendarApi.Grouped: the days come in the order of their first event. A JavaScript record lists integer-like keys first, in ascending order, so this holds only for keys that are not integer-like. `extractDateString` yields date strings such as "2024-01-15", which are not integer-like, but the model takes the key function as a parameter without this constraint.
- CalendarApi: `getEventsPerCalendar` and the Google client are not part of this model; their answer is an input.
- Opaque primitives are function parameters:
  - `encodeURI` and `JSON.stringify`;
  - `parseFloat` and `Number`;
  - `getWindDirectionIcon`;
  - `getAvatarIcon`, represented by its text and colour;
  - the YAML check of the corrected validator.

  The fields' `toYaml`/`fromYaml` converters are not modelled.
- SpeedTest.Apply: a download, upload or result event without its `download`/`upload` object makes the source throw a TypeError (`d.bandwidth`, `obj.download.bandwidth`). The model reads a missing bandwidth as undefined and still fires the callback.
- SpeedTest: spawning the CLI, `JSON.parse` of a chunk and the error callbacks are not modelled; events arrive already parsed. The callbacks receive the same mutable object each time. The model records a snapshot per callback, so aliasing between snapshots is not captured.
- Network clients (wttr.in, GitLab, Home Assistant, Twitter, the VS Code marketplace, Google) are not modelled; their answers are inputs.
- TwitterApi.AccountSession.LoggedInUserAccount: the request always succeeds, and calls never overlap. In the source a failed `accountSettings` leaves the cache empty, so a later call asks again. Two overlapping calls both send a request, because the cache is written only after the `await`. "At most one request" holds only for sequential, successful calls.
- HAServices.Validate: follows the corrected validator of Findings. As written, the source is the instance where `isYaml` accepts every string (`HAServices.ObjectValidator`), so an object field never records an error.
- React effects: a state setter is modelled as a plain assignment. Stale closures (for example `setUserDataByKey` reading an outdated `userData`) are not captured.
- The Visual Studio Code list item's subtitle, version and date rendering and the install action are not modelled; neither is the YouTube video's view-count text.
- GitLab: `tokenizeQueryText` is not part of this model; the tokenized query is an input, with its named tokens in key order.

## Findings

| source | as written | input that shows it | evidently intended | confidence | as-written member | corrected member |
|---|---|---|---|---|---|---|
| extensions/snake/src/lib/game.ts:43-47 | The food test comes before `isValidCoord`, and the index is `width * y + x`. A head on the right edge moving right reads the cell at the start of the next row | A 100 × 18 field with food at index 600 (cell (0, 6)), and the head at (99, 5) moving right. The move is classified as eating, so the head goes to (100, 5), off the board | Only a coordinate on the board can be eaten; leaving the board is a crash | high, not executed | SnakeGame.FoodWrapLeavesBoard | SnakeGame.ClassifyChecked |
| extensions/homeassistant/src/components/services/hooks.tsx:102-110 | The object validator calls `parse` from the `path` module, which returns normally on any string, so "No valid yaml" is never reported | The value `a: [` (not YAML) passes validation | A non-blank value that is not valid YAML is rejected with "No valid yaml" | medium, not executed | HAServices.ObjectValidator | HAServices.YamlObjectValidator |
