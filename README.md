# Celeris shipment lifecycle in Dafny

Celeris is a logistics dashboard for parcel shipping in Tlaxcala. It is made of React pages over two
database tables: `paquetes` (shipments) and `perfiles` (staff and customer profiles). This project
models the shipment lifecycle that those pages implement and proves its properties:

- The reception desk quotes a price, generates a tracking code and inserts a `recibido` row.
- The warehouse dispatches a package to a driver. It refuses a dispatch that would exceed the
  driver's capacity. It can also revert a dispatch.
- The driver confirms delivery with the security code, reports incidents, and sees a daily
  completion percentage.
- Customers link packages by tracking code. Anyone can look up a package publicly.
- The manager sees headline figures, staff efficiency, client counts and 8-row pages.
- A role guard and the route table decide who sees which page. The login page decides where a user
  lands.

Modules follow the source files:

| module | models |
|---|---|
| `Domain` (domain.dfy) | rows of both tables; `filter`/`reduce`/`find`, `.eq(...).update(...)` and `.single()` on query results; the rounded percentage |
| `Text` (text.dfy) | `trim`, `toUpperCase`, `toLowerCase` and `includes` on ASCII strings |
| `Reception` (reception.dfy) | `src/pages/Recepcion.jsx` |
| `Warehouse` (warehouse.dfy) | `src/pages/Bodega.jsx` |
| `Courier` (courier.dfy) | `src/pages/Chofer.jsx` |
| `Customer` (customer.dfy) | `src/pages/Cliente.jsx` |
| `PublicTracking` (public_tracking.dfy) | `src/pages/Home.jsx` |
| `Management` (management.dfy) | `src/pages/Gerente.jsx` |
| `Access` (access.dfy) | `src/components/l.jsx` and `src/App.jsx` |
| `Login` (login.dfy) | `src/pages/Login.jsx` |
| `Lifecycle` (lifecycle.dfy) | the shared tables as class `Db`, one method per write a page makes |

Modelling choices:

- **Tables are sequences.** A table is a `seq` of rows with unique ids, kept newest first as the
  pages order them. They are not maps, because the pages depend on query order: the driver's
  oldest-first list, the 20 newest history rows, and customers' newest-first lists.
- **Writes are pure functions plus methods.** Each database write is a pure function returning a
  `Result`, with the page's error toasts as the `Err` cases. A method of `Lifecycle.Db` applies it
  and keeps the tables' invariant `TableOk`. That invariant says:
  - ids are keys;
  - rows stay newest first;
  - no driver carries more than their capacity.
- **Row-level access is a parameter.** The database's row-level access verdict on an update is the
  boolean `permitted`. An update it refuses affects zero rows, and the warehouse reports that as
  `PermissionDenied`.
- **Weights and money are exact reals.** Percentages are whole numbers rounded half up.
- **Roles are plain strings.** The guard and the login page treat unknown roles specially, so the
  model keeps them as the source compares them.

Three facts about the code that a reader might not expect:

- **Tracking codes can collide.** The code draws a random number and checks nothing: there is no
  uniqueness test and no retry, so two shipments can share a code. `Reception.TrackingIdDraws`
  states what is guaranteed: different draws give different codes for the same destination.
- **Outcomes are not terminal in the write itself.** The incident report checks no status, so the
  write turns a delivered package into an incident (`Courier.IncidentAfterDelivery`). The page only
  offers the incident button on the driver's en-route list (`misPaquetes`, src/pages/Chofer.jsx:240-265),
  so a delivered row is reached only through a list that is stale, for example one loaded before the
  delivery was saved from another tab.
- **Dispatch and revert check no status themselves.** Dispatch takes any `recibido` or `en_ruta`
  package the page has loaded, and revert takes any row. Only the page's tabs keep them apart.

## Model

| member | source | states |
|---|---|---|
| Reception.BaseFare | src/pages/Recepcion.jsx:53-71 | the base fare is always one of 50, 70, 120, 150, 200 |
| Reception.Quote | src/pages/Recepcion.jsx:46-76 | the cost is 0 exactly when the weight is 0; otherwise it lies between 50 + 15·w and 200 + 15·w |
| Reception.QuoteTable | src/pages/Recepcion.jsx:58-74 | for a positive weight: same city 50 + 15·w; Tlaxcala Centro↔Chiautempan 70 + 15·w; Calpulalpan at either end 200 + 15·w, ahead of Huamantla; Huamantla 150 + 15·w; otherwise 120 + 15·w |
| Reception.QuoteSymmetric | src/pages/Recepcion.jsx:58-71 | swapping origin and destination never changes the price |
| Reception.QuoteExamples | src/pages/Recepcion.jsx:74 | Tlaxcala Centro→Apizaco at 10 kg costs 270; a zero weight costs 0; Calpulalpan→Huamantla at 2 kg costs 230 |
| Reception.Digits4RoundTrip | src/pages/Recepcion.jsx:140-141 | the four digits written into a code read back as the drawn number |
| Reception.TrackingId | src/pages/Recepcion.jsx:137-142 | a code starts with `TLX-`, has 9 characters plus the city prefix, and ends in four digits |
| Reception.TrackingIdParts | src/pages/Recepcion.jsx:137-142 | a code is `TLX-`, the upper-cased first three letters of the destination, `-`, and the number 1000 + draw, which lies in 1000..9999 |
| Reception.TrackingIdLength | src/pages/Recepcion.jsx:137-142 | for a destination of at least three letters, as every offered city is, the code has 12 characters |
| Reception.TrackingIdDraws | src/pages/Recepcion.jsx:140 | for one destination, two codes are equal exactly when the draws are equal |
| Reception.NewShipment | src/pages/Recepcion.jsx:154-164 | the inserted row is `recibido` with no driver or note, carries the security code the database assigns, costs the current quote, and carries the generated tracking code and the form's fields |
| Lifecycle.InsertKeepsTableOk | src/pages/Recepcion.jsx:154-164 | inserting a row with the next id and the latest timestamp keeps ids unique, rows newest first and every driver within capacity |
| Lifecycle.Db.Create | src/pages/Recepcion.jsx:144-178 | prepends exactly the new row, with the security code the database gives it, advances the id sequence, resets the form to its blank state and keeps the invariant |
| Warehouse.Load | src/pages/Bodega.jsx:94-96 | a driver's load is between 0 and the weight of the whole table, and 0 when the driver carries nothing `en_ruta` |
| Warehouse.LoadCons | src/pages/Bodega.jsx:94-96 | a row in front adds its weight to a driver's load exactly when that driver carries it `en_ruta`, and nothing otherwise |
| Warehouse.LoadActive | src/pages/Bodega.jsx:76-96 | the load computed over the page's cache of `recibido`/`en_ruta` rows equals the load over the whole table |
| Warehouse.LoadUpdate | src/pages/Bodega.jsx:94-96 | replacing one row changes a load by exactly the difference of the two rows' contributions |
| Warehouse.LoadPointwise | src/pages/Bodega.jsx:94-96 | if no row adds more to a driver than before, that driver's load does not grow |
| Warehouse.Drivers | src/pages/Bodega.jsx:85-88 | the driver list holds exactly the profiles whose role is `chofer` |
| Warehouse.OptionDisabled | src/pages/Bodega.jsx:183-186 | a package heavier than a driver's whole capacity greys that driver out; a weightless package never greys out a driver within capacity; for a driver carrying nothing the option is greyed out exactly when the weight exceeds the capacity |
| Warehouse.Dispatch | src/pages/Bodega.jsx:130-161 | no selected driver is refused first, then an unknown package; a write the access rules refuse never succeeds; a success assigns that package and keeps the table's length |
| Warehouse.DispatchRefusedIffOptionDisabled | src/pages/Bodega.jsx:144-148 | a dispatch is refused for weight exactly when the picker greys the driver out, i.e. load + weight > capacity; equality is allowed; an allowed, permitted dispatch succeeds |
| Warehouse.DispatchIsAssign | src/pages/Bodega.jsx:130-165 | a successful dispatch had a driver selected, a loaded package, a known driver and a permitted write, and is the assignment of that package |
| Warehouse.DispatchSetsDriver | src/pages/Bodega.jsx:151-161 | after a dispatch exactly that package has `chofer_id` = driver and `en_ruta`; every other row is unchanged |
| Warehouse.DispatchMovesLoad | src/pages/Bodega.jsx:151-161 | a dispatch moves the package's weight onto the chosen driver and off any previous carrier; for a `recibido` package the chosen load grows by exactly the weight and no other load changes |
| Warehouse.DispatchKeepsCapacity | src/pages/Bodega.jsx:144-161 | if every driver is within capacity before a dispatch, every driver is within capacity after |
| Warehouse.Cancel | src/pages/Bodega.jsx:153-165 | a refused write or an unknown id gives `PermissionDenied`; a success unassigns that package and keeps the table's length |
| Warehouse.CancelOutcome | src/pages/Bodega.jsx:153-165 | a revert fails exactly when the write is not permitted or no row has that id; otherwise it clears the driver and sets `recibido` on that row only |
| Warehouse.CancelMovesLoad | src/pages/Bodega.jsx:153-161 | a revert drops the former driver's load by exactly the package's contribution |
| Warehouse.CancelKeepsCapacity | src/pages/Bodega.jsx:153-161 | a revert never pushes a driver over capacity |
| Warehouse.WarehouseTabs | src/pages/Bodega.jsx:110-122 | with no search or city filter, the pending tab lists exactly the `recibido` packages and the en-route tab exactly the `en_ruta` ones |
| Warehouse.WarehouseView | src/pages/Bodega.jsx:110-122 | the listed packages are among the loaded ones, all in the tab's status and, when a city is chosen, all going there; the order is kept |
| Warehouse.WarehouseSearch | src/pages/Bodega.jsx:110-122 | a package in the tab's status is listed exactly when its code or customer name contains the search text ignoring case and the city filter is empty or matches |
| Lifecycle.DispatchKeepsTableOk | src/pages/Bodega.jsx:130-161 | a dispatch keeps ids unique, rows in order and every driver within capacity |
| Lifecycle.CancelKeepsTableOk | src/pages/Bodega.jsx:153-161 | a revert keeps the invariant |
| Lifecycle.Db.Dispatch | src/pages/Bodega.jsx:130-175 | the table becomes the dispatch's result on success and is unchanged on every refusal, which is returned; the invariant is kept |
| Lifecycle.Db.Cancel | src/pages/Bodega.jsx:130-175 | the table becomes the revert's result or is unchanged on refusal; the invariant is kept |
| Courier.Pending | src/pages/Chofer.jsx:49-54 | the to-do list holds exactly the driver's `en_ruta` packages, each once, oldest first |
| Courier.PendingIsLoad | src/pages/Chofer.jsx:49-54 | the driver's to-do list weighs exactly the load the warehouse counts against their capacity |
| Courier.History | src/pages/Chofer.jsx:57-64 | the history holds at most 20 rows, is a prefix of the driver's `entregado`/`incidencia` packages newest first, and is all of them when there are at most 20, otherwise exactly the 20 newest |
| Courier.DailyPercent | src/pages/Chofer.jsx:145-147 | the percentage lies in 0..100, is 0 with no packages, and is 100 when nothing is pending and all of the history was delivered |
| Courier.DailyPercentExamples | src/pages/Chofer.jsx:145-147 | one delivered package alone gives 100; none gives 0; one pending and one delivered give 50 |
| Courier.Deliver | src/pages/Chofer.jsx:81-94 | a code shorter than 4 is refused first; a delivery only succeeds for a package this driver has `en_ruta` |
| Courier.DeliverGate | src/pages/Chofer.jsx:81-94 | for a package on the driver's list, delivery succeeds exactly when the input has 4+ characters and the package has no code or the code matches |
| Courier.DeliverWritesStatusOnly | src/pages/Chofer.jsx:123-128 | a delivery changes only `estado` to `entregado` on that row; the driver and every other field stay |
| Courier.ReportIncident | src/pages/Chofer.jsx:97-121 | an incident is refused exactly when the reason is empty |
| Courier.ReportIncidentWrites | src/pages/Chofer.jsx:104-107 | a report sets `incidencia` and the note on that row and changes nothing else |
| Courier.IncidentAfterDelivery | src/pages/Chofer.jsx:97-110 | the report checks no status, so a delivered package can be marked an incident |
| Courier.DriverStepsAdvance | src/pages/Chofer.jsx:81-128 | neither delivery nor an incident moves any package back along received → en route → outcome |
| Courier.DeliverKeepsCapacity | src/pages/Chofer.jsx:123-128 | a delivery never pushes a driver over capacity |
| Courier.ReportIncidentKeepsCapacity | src/pages/Chofer.jsx:104-110 | an incident report never pushes a driver over capacity |
| Courier.Toggle | src/pages/Chofer.jsx:69 | the activity always changes |
| Courier.ToggleTwice | src/pages/Chofer.jsx:69 | toggling twice restores the activity |
| Lifecycle.ToggleActivity | src/pages/Chofer.jsx:68-76 | exactly the driver's own profile flips its activity; every other profile stays |
| Lifecycle.ToggleActivityTwice | src/pages/Chofer.jsx:68-76 | toggling twice restores the profile table |
| Lifecycle.DeliverKeepsTableOk | src/pages/Chofer.jsx:81-94 | a delivery keeps the invariant |
| Lifecycle.ReportIncidentKeepsTableOk | src/pages/Chofer.jsx:97-121 | an incident report keeps the invariant |
| Lifecycle.ToggleKeepsTableOk | src/pages/Chofer.jsx:68-76 | toggling activity keeps the invariant |
| Lifecycle.Db.ConfirmDelivery | src/pages/Chofer.jsx:81-94 | the table becomes the delivery's result or is unchanged with the refusal returned; the invariant is kept |
| Lifecycle.Db.ReportIncident | src/pages/Chofer.jsx:97-121 | the table becomes the report's result or is unchanged with the refusal returned; the invariant is kept |
| Lifecycle.Db.Toggle | src/pages/Chofer.jsx:68-76 | only the driver's activity changes and the invariant is kept |
| Customer.Owned | src/pages/Cliente.jsx:34-40 | the initial list holds exactly the packages under the user's email, newest first |
| Domain.SingleLookup | src/pages/Cliente.jsx:62-66 | `.single()` yields a row carrying the code exactly when one row carries it, and nothing when none does |
| Domain.SingleLookupFinds | src/pages/Cliente.jsx:62-66 | in a keyed table where only one row carries a code, the lookup finds that row |
| Customer.LinkAsWritten | src/pages/Cliente.jsx:50-81 | as written: an empty input is refused; a code listed exactly as typed is refused; otherwise the link succeeds exactly when `.single()` finds a row under the trimmed code, which is prepended to the list |
| Customer.LinkAsWrittenDuplicates | src/pages/Cliente.jsx:55-66 | as written, a listed code typed with a leading blank is linked again and the list gains a duplicate |
| Customer.Link | src/pages/Cliente.jsx:50-81 | an empty input is refused; a listed code is refused; otherwise the package `.single()` finds under the trimmed code is prepended, or `NotFound` leaves the list as it was |
| Customer.LinkKeepsCodesDistinct | src/pages/Cliente.jsx:72 | a link prepends a package carrying the trimmed code, keeps the old list behind it, and never makes two entries share a code |
| Customer.LinkRefusesPaddedDuplicate | src/pages/Cliente.jsx:55-57 | a listed code typed with blanks around it is refused as already listed |
| Customer.Visible | src/pages/Cliente.jsx:89-93 | a package is shown exactly when the lower-cased search text occurs in its lower-cased tracking code, description or destination |
| Customer.VisibleEmptySearch | src/pages/Cliente.jsx:89-93 | an empty search shows the whole list |
| Customer.Progress | src/pages/Cliente.jsx:96-101 | `entregado` 100, `en_ruta` 75, `en_bodega` 50, anything else 15, each in both directions |
| Customer.ProgressAlongLifecycle | src/pages/Cliente.jsx:96-101 | the bar grows along received → en route → delivered, and an incident shows the received value |
| Customer.PackageList.constructor | src/pages/Cliente.jsx:27-47 | the list starts as the user's own packages with an empty input box |
| Customer.PackageList.AddManual | src/pages/Cliente.jsx:50-81 | on success the list becomes the link's result and the box is emptied; on any error the list and the box are unchanged |
| PublicTracking.ProjectAgrees | src/pages/Home.jsx:29 | two rows look the same to the public exactly when they agree on tracking code, status, origin, destination and creation time |
| PublicTracking.Normalise | src/pages/Home.jsx:30 | the lookup key has no lower-case letter and is no longer than the input |
| PublicTracking.NormaliseTyped | src/pages/Home.jsx:30 | an upper-case code typed in lower case or as is, with blanks around it, normalises back to the code |
| PublicTracking.Search | src/pages/Home.jsx:18-43 | an empty input changes nothing; otherwise the modal opens, a thrown call gives `error`, `no_encontrado` appears exactly when `.single()` finds no row, and a found row is shown as its public projection |
| PublicTracking.SearchHidesSecrets | src/pages/Home.jsx:27-36 | two tables that differ only outside the public columns (security code, email, cost…) give the same result |
| PublicTracking.GeneratedCodeIsUpper | src/pages/Recepcion.jsx:137-142 | every generated tracking code is already upper case |
| PublicTracking.FindsTypedCode | src/pages/Home.jsx:27-36 | a generated code typed in lower case with blanks finds its package, if no other row shares the code |
| PublicTracking.Close | src/pages/Home.jsx:45-49 | closing clears the input and the result and closes the modal |
| PublicTracking.CloseAfterSearch | src/pages/Home.jsx:45-49 | closing after any search returns the page to its opening state |
| PublicTracking.Label | src/pages/Home.jsx:215 | the label has the status's length, keeps every non-underscore character, and turns an underscore into a space exactly when it is the first one |
| PublicTracking.LabelFirstUnderscore | src/pages/Home.jsx:215 | only the first underscore is replaced and everything after it is kept |
| PublicTracking.StatusLabel | src/pages/Home.jsx:215 | `en_ruta` shows as `en ruta`; the other statuses show as stored |
| Management.Headline | src/pages/Gerente.jsx:79-88 | today's count never exceeds the table; incidents and packages on the road together never exceed it; with non-negative costs today's revenue is between 0 and the whole table's, and positive when a paying package was created today |
| Management.OnMap | src/pages/Gerente.jsx:81-89 | the map shows exactly the `en_ruta` packages, newest first |
| Management.StatusCountsPartition | src/pages/Gerente.jsx:83-88 | the four status counts add up to the number of packages |
| Management.FilterCostBounded | src/pages/Gerente.jsx:83 | with non-negative costs, any selection of rows earns between 0 and the whole table's revenue, and more than 0 when it holds a paying row |
| Management.DeliveredWithinAssigned | src/pages/Gerente.jsx:97-99 | a driver's delivered packages never outnumber their assigned ones |
| Management.StaffFigures | src/pages/Gerente.jsx:96-104 | efficiency is in 0..100, 0 with no packages and 100 when all were delivered; a driver's delivered count is their `entregado` rows; others get zeros |
| Management.Staff | src/pages/Gerente.jsx:94-105 | the staff table holds exactly the non-customer profiles, each with its figures |
| Management.Clients | src/pages/Gerente.jsx:109-116 | the client table holds exactly the customer profiles, each with the number of packages under its email |
| Management.ClientCountMatchesCustomerList | src/pages/Gerente.jsx:111-114 | a client's count is the length of the list that customer sees on their own page |
| Management.TotalPages | src/pages/Gerente.jsx:186 | at least one page, exactly one for no items, and just enough 8-row pages to hold every item |
| Management.PageOf | src/pages/Gerente.jsx:179-188 | a page has at most 8 items, taken in order from position (p−1)·8; a page within range of a non-empty list is non-empty; full pages have 8 items |
| Management.AllPages | src/pages/Gerente.jsx:179-188 | reading pages 1 to the last shows every item exactly once, in order |
| Management.Prev | src/pages/Gerente.jsx:385 | Previous goes one page back but never below 1 |
| Management.Next | src/pages/Gerente.jsx:386 | Next goes one page on but never past the last page |
| Management.ButtonsStayInRange | src/pages/Gerente.jsx:385-386 | from any existing page, both buttons lead to an existing page |
| Access.RouteFor | src/App.jsx:23-54 | `/login` renders the login page; the five protected paths are guarded; every other path renders home unguarded |
| Access.RouteTable | src/App.jsx:29-51 | `/recepcion` admits exactly recepcion and gerente, `/bodega` bodega and gerente, `/chofer` only chofer, `/cliente` only cliente, `/gerente` only gerente |
| Access.OwnPage | src/components/l.jsx:43-48 | a known role is sent to the page of its own name; anything else to `/` |
| Access.Guard | src/components/l.jsx:15-51 | no session goes to `/login`; the protected page renders exactly when the profile's role is allowed; a missing profile goes to `/`; a refused role goes to its own page |
| Access.Navigate | src/components/l.jsx:40-51 | open routes always show their page; a guarded route shows only its own page |
| Access.OneRedirectSettles | src/components/l.jsx:42-48 | after one redirect the page always shows, so there is never a second redirect or a loop |
| Login.Landing | src/pages/Login.jsx:68-78 | gerente, chofer, recepcion and bodega land on the page of their own name; every other role lands on `/cliente` |
| Login.HandleAuth | src/pages/Login.jsx:16-83 | a password under 6 is refused before any call; a sign-in with a profile goes to its landing page; a read error or a missing profile stays; a sign-up goes to `/cliente` exactly when it and the automatic sign-in succeed |
| Login.LandingAdmitted | src/pages/Login.jsx:68-78 | each of the five known roles lands on a page that admits it; any other role lands on `/cliente` and is sent on to `/` |
| Domain.Percent | src/pages/Chofer.jsx:147 | `Math.round(100·part/whole)` in exact arithmetic: in 0..100, 0 for an empty whole, 100 when part = whole, and rounded half up |

## Left out

- **Database calls.** The Supabase queries, inserts, updates and auth calls are replaced by
  operations on in-memory sequences. Only one write failure is modelled: the warehouse's zero-row
  update, shown as `PermissionDenied`, driven by the parameter `permitted`. Write errors elsewhere
  are not modelled, including a failed insert at reception and a failed status update for a driver.
- **Concurrency.** The warehouse checks capacity against its cached loads and then writes, with no
  transaction or lock. The model runs operations one at a time and claims nothing about races.
  It also leaves out stale caches, for example the reload after each write.
- **Post-delivery rating.** No file shown implements it.
- **The `en_bodega` status.** It is only read, in `getProgreso`, and never written. `Customer.Progress`
  keeps its branch over the stored string.
- **Security-code generation.** No shown code sets `codigo_seguridad`; the insert does not name it.
  The value the database stores is the parameter `code` of `Reception.NewShipment` and
  `Lifecycle.Db.Create`, so `Db` can hold coded rows and the wrong-code refusal is reachable.
- **Tracking-code uniqueness.** The number comes from `Math.random` and is given to the model as a
  parameter `draw` < 9000. Nothing prevents a collision.
- **Parsing and floating point.** `parseFloat`, `Math.round` and `toFixed` are not modelled.
  - Weights are non-negative reals, and the form's weight is already parsed. A non-numeric weight,
    which the page treats as 0, is represented by 0.
  - Costs are reals. The manager's `parseFloat(costo) || 0` is taken as the stored number.
  - Percentages are exact, rounded half up.
- **Dates and the chart.** "Created today" is the predicate parameter `isToday`. The 7-day chart
  is left out.
- **Warehouse selection widget.** The dispatch picker's per-row selection `selecciones` and its
  clearing are not modelled.
- **The manager's search and view state.** The `JSON.stringify` search that filters what is paged
  is left out: `Management.PageOf` pages the list it is given. So is the reset of page and search
  when the view changes.
- **Pages in the manager's view.** Only the clients table has Previous/Next buttons in the source.
  `Management.Next` takes the page count as a parameter.
- **Presentation and plumbing.** Left out:
  - rendering, toasts and maps;
  - the 15-second polling;
  - `window.open`;
  - employee registration;
  - the customer-name lookup at reception;
  - the guard's loading state;
  - `tailwind.config.js`.
- **Query order of the staff table.** `Management.Staff` keeps the order of the profile sequence it
  is given instead of sorting by role.
- **Clock.** `Lifecycle.Db.Create` takes the insert time `now`. It requires `now` to be no earlier
  than the newest row, standing in for the database's own clock.
- **Text.** Strings are sequences of characters. `trim`, case mapping and `includes` are modelled
  for ASCII only: no Unicode case mapping, and `trim` strips the six ASCII whitespace characters
  only.
- Courier.Deliver: the code box's `maxLength={4}` (src/pages/Chofer.jsx:297) is not modelled, so
  the model accepts typed codes of any length from 4 up; on the page only exactly 4 characters reach
  the comparison, and a package whose stored code is not 4 characters long cannot be delivered.
- Access.RouteFor: matches paths as exact, case-sensitive strings. The router in src/App.jsx
  matches case-insensitively and accepts a trailing slash, so `/GERENTE` or `/gerente/` is guarded
  there while the model sends it to the unguarded home page.
- Customer.PackageList.AddManual: models the corrected link (`Customer.Link`), not the link as
  written. The as-written behaviour is `Customer.LinkAsWritten`, under Findings.

## Findings

| source | as written | input that shows it | evidently intended | confidence | as-written member | corrected member |
|---|---|---|---|---|---|---|
| src/pages/Cliente.jsx:55-66 | the "already in your list" check compares the untrimmed input with each listed `tracking_id`, but the lookup uses `nuevoTracking.trim()` | the list holds package P with code `TLX-API-1234`, and the customer types ` TLX-API-1234` with a leading blank: the check passes, the lookup finds P, and P is listed twice | check for duplicates on the same trimmed code the lookup uses, so a listed package is never linked again | not executed | Customer.LinkAsWrittenDuplicates | Customer.LinkKeepsCodesDistinct |
