# folly4 generic CRUD core, modelled in Dafny

folly4's backend serves every entity (users, roles, permissions, audit
records) through one generic stack:

- an HTTP controller reads `page`, `size`, `filter`, `order` and
  `relations` from the query string;
- a service, `CrudServiceWithHooks`, runs optional Before / After / OnFail
  hooks around each of thirteen repository operations;
- the permission service and the audit service are two sets of such hooks,
  stacked as decorators (permission over audit over the repository for users);
- a GORM repository turns pagination, filter, ordering and preload requests
  into query clauses (scopes) and assembles the page envelope.

Around this sit:

- a small filter language (`field:comparator:value` leaves and
  `and(…)`/`or(…)`/`not(…)` composites) with its printer and parser;
- order-by and relation parameter parsers;
- a reflective field mapper between DTO shapes;
- the request-context helpers that carry the caller and the audit record;
- the entity models, and an ANSI colouring helper.

The model keeps the source's own form.

- **Pure parsing and printing** are functions with round-trip lemmas: the
  filter, order and relation parameters, the scopes and the controller readers.
- **Loops** become methods with loop invariants, proved against a
  specification function. These are the mapper checks, `Map`,
  `getFieldNames`, the permission list, `Format`, the preload, order and
  composer loops, and `ComboBox`'s option loop.
- **Objects updated in place** are classes with `modifies` clauses: the hook
  registry, the entity models, and the audit object the `Set*` context
  helpers update through the context.
- **Hooks** are state transformers over a `World` value: the request
  context, the audit store and free data. A repository is a function from a
  world and a request to an `Outcome` (new world, reply, error). A hooked
  service is itself such a repository, which is how the decorators stack.
- **Go panics** are the `Panic` case of `Common.Error`.
- **The database** is a parameter: the answers it gives to each statement.

Where the source has a defect, the defect is modelled and exhibited, and a
corrected definition is proved and used by the rest of the model (see
"## Findings"). This affects four places:

- the controller reads filters with the corrected parser
  (`Controller.ExtractFilterAsWritten` reads them with the parser as written);
- the repository applies a missing filter as no condition;
- every filter scope, `GormScopes.ScopeFilterAsWritten` included, binds a
  leaf's value to its placeholder (`GormScopes.CompareAsWritten` is the
  unbound comparison);
- the user service uses the corrected find check.

## Model

| member | source | states |
|---|---|---|
| Filter.Render | backend/src/lib/generics/filter/filter.go:79-85 | the method's loop over the children renders exactly the filter's string form: `field:comparator:value` for a leaf, `op(` children joined by `,` `)` for a composite |
| Filter.ToStrings | backend/src/lib/generics/filter/filter.go:79-85 | one rendered string per child |
| Filter.LeafConstructorComparators | backend/src/lib/generics/filter/filter.go:99-153 | each of the twelve leaf constructors stores its own comparator constant, and IsNull / IsNotNull store no value |
| Filter.CompositeConstructorsRender | backend/src/lib/generics/filter/filter.go:87-97 | `Not(f)` is a composite with exactly the one child f; `And` / `Or` keep their children in the given order |
| Filter.OperatorOf | backend/src/lib/generics/filter/filter.go:210 | the operator is the text before the first `(`: a prefix of the input with no `(` in it, followed by `(` when shorter than the input |
| Filter.ParseLeaf | backend/src/lib/generics/filter/filter.go:199-207 | succeeds iff the text has exactly two `:`; the comparator is not checked, the value is text, and the leaf prints back as the input; otherwise the leaf-format error |
| Filter.ParseShape | backend/src/lib/generics/filter/filter.go:179-223 | Parse yields a composite exactly when the input starts with `and(`, `or(` or `not(`, always with a valid operator and at least one child; that prefix test admits only valid operators; a valid one too short to slice panics |
| Filter.Parse | backend/src/lib/generics/filter/filter.go:179-197 | the dispatch on the `and(`/`or(`/`not(` prefix; its results are stated by Filter.ParseShape, Filter.LeafRoundTripExact and the round-trip lemmas |
| Filter.ParseComposite | backend/src/lib/generics/filter/filter.go:209-223 | the operator check, the slice and the list parse; its results are stated by Filter.ParseCompositeSpec |
| Filter.ParseFilterList | backend/src/lib/generics/filter/filter.go:225-236 | the split at every comma and the loop over the pieces; its results are stated by Filter.ParseEachSpec and Filter.ParseFilterListLength |
| Filter.ParseCompositeSpec | backend/src/lib/generics/filter/filter.go:209-223 | called directly, an operator other than and/or/not is the operator error; a valid operator too short to slice is the slice panic; otherwise the composite succeeds iff the text between `(` and the last character (the last byte when that character is ASCII) parses as a list, holds that list, and passes its error on |
| Filter.InvalidOperatorRejected | backend/src/lib/generics/filter/filter.go:209-212 | any text before the first `(` other than and/or/not is refused with the operator error naming it, whatever follows |
| Filter.InvalidOperatorExample | backend/src/lib/generics/filter/filter_test.go:46-50 | `invalid(operator)` is refused with the operator error for `invalid` |
| Filter.ParseEachSpec | backend/src/lib/generics/filter/filter.go:225-236 | the list succeeds iff every segment parses; then one filter per segment in order, otherwise the error of the first failing segment |
| Filter.ParseEachFirstError | backend/src/lib/generics/filter/filter.go:228-233 | a failing list returns the error of a segment all of whose predecessors parse, as the loop returns at the first failure |
| Filter.ParseFilterListLength | backend/src/lib/generics/filter/filter.go:227 | a parsed list has one child per comma plus one, since it is split at every comma |
| Filter.LeafRoundTrip | backend/src/lib/generics/filter/filter.go:58-60 | a text leaf with no `:` in its parts and a field that does not start like a composite is printed and parsed back as itself; brackets and commas in its parts are allowed |
| Filter.LeafRoundTripExact | backend/src/lib/generics/filter/filter.go:179-207 | a text leaf survives printing and parsing iff it has no `:` in its parts and its field does not start like a composite |
| Filter.FlatCompositeRoundTrip | backend/src/lib/generics/filter/filter.go:179-236 | a non-empty and/or/not of text leaves free of `:` and `,`, whose fields do not start like a composite, round-trips through the as-written parser; brackets inside the leaves are allowed |
| Filter.NestedCompositeMisparsed | backend/src/lib/generics/filter/filter.go:225-236 | as written, a composite with a nested composite of two or more children never parses back to itself |
| Filter.OpenCompositePanics | backend/src/lib/generics/filter/filter.go:209-216 | as written, `and(` panics on the slice |
| Filter.LastCharacterIgnored | backend/src/lib/generics/filter/filter.go:216 | as written, the last character of a composite is dropped unchecked: any ASCII character parses like `)` (for a non-ASCII one see "## Left out") |
| Filter.NestedRejectsUnclosed | backend/src/lib/generics/filter/filter.go:209-216 | the corrected parser rejects a composite that is too short or does not end in `)`, with an error rather than a panic |
| Filter.ParseNestedNeverPanics | backend/src/lib/generics/filter/filter.go:179-236 | the corrected parser never panics, on any input |
| Filter.SplitTopLevelJoin | backend/src/lib/generics/filter/filter.go:225-236 | the corrected list split cuts only at commas outside brackets, so it undoes a join of balanced, comma-free-at-top pieces |
| Filter.NestedRoundTrip | backend/src/lib/generics/filter/filter.go:155-236 | with the corrected list split, every well-formed filter, nested to any depth, parses back to itself |
| Order.AscOrderBy | backend/src/lib/generics/order/order.go:20-22 | the given field with direction `asc` |
| Order.DescOrderBy | backend/src/lib/generics/order/order.go:24-26 | the given field with direction `desc` |
| Order.NewOrderBy | backend/src/lib/generics/order/order.go:28-30 | the given field and direction, direction unchecked |
| Order.ParseOrderBy | backend/src/lib/generics/order/order.go:48-57 | succeeds iff the segment has exactly one `:`; the direction is kept verbatim and the result prints back as the segment; otherwise the format error |
| Order.Parse | backend/src/lib/generics/order/order.go:33-45 | the method's loop computes ParseOrders: the first failing segment's error, or one ordering per segment |
| Order.SegmentsFirstError | backend/src/lib/generics/order/order.go:37-40 | the first segment that fails decides the error |
| Order.SegmentsSpec | backend/src/lib/generics/order/order.go:33-45 | success iff every segment has one `:`; then one ordering per segment in order, each printing back as its segment |
| Order.ParseOrdersSpec | backend/src/lib/generics/order/order.go:33-57 | a string parses iff every comma-separated segment has one `:`; then commas plus one orderings that print back as the input |
| Order.EmptySegmentRejected | backend/src/lib/generics/order/order.go:34-52 | an empty segment, the empty string or a trailing comma included, fails the whole parse |
| Order.RoundTrip | backend/src/lib/generics/order/order.go:33-57 | a non-empty list of orderings free of `:` and `,` parses back to itself |
| Relation.Parse | backend/src/lib/generics/relation/relation.go:13-21 | never fails: one relation per comma plus one, verbatim and comma-free, joining back to the input |
| Mapper.GetFieldNames | backend/src/lib/generics/mapper.go:167-173 | the names of the fields, in order |
| Mapper.NewGenericMapper | backend/src/lib/generics/mapper.go:26-28 | stores both lists unvalidated |
| Mapper.CheckListed | backend/src/lib/generics/mapper.go:49-57 | no error iff every listed name is in both shapes; otherwise the panic names a missing field and the shape it is missing from |
| Mapper.CheckAgainstOutput | backend/src/lib/generics/mapper.go:59-68 | true iff every output field of the same name has the input field's type |
| Mapper.NewGenericMapperExcluding | backend/src/lib/generics/mapper.go:30-71 | succeeds iff every excluded name is in both shapes and every shared non-excluded field agrees in type; otherwise panics |
| Mapper.NewGenericMapperIncluding | backend/src/lib/generics/mapper.go:73-110 | succeeds iff every included name is in both shapes and agrees in type; other shared fields go unchecked; otherwise panics |
| Mapper.NewGenericMapperDefault | backend/src/lib/generics/mapper.go:112-134 | succeeds iff every shared field agrees in type; otherwise the type-mismatch panic of some input field |
| Mapper.Map | backend/src/lib/generics/mapper.go:136-165 | the method's loop computes MapSpec: field by name, with the include / exclude rules |
| Mapper.MapSpecResult | backend/src/lib/generics/mapper.go:136-165 | Map fails iff some copied field clashes in type; otherwise each output field holds the input's value when the field is shared, not excluded and included (or no include list), and its zero value otherwise |
| Mapper.DefaultNeverClashes | backend/src/lib/generics/mapper.go:121-128 | a default mapper that was constructed never panics in Map |
| Mapper.ExcludingNeverClashes | backend/src/lib/generics/mapper.go:59-68 | an excluding mapper that was constructed never panics in Map |
| Mapper.IncludingNeverClashes | backend/src/lib/generics/mapper.go:96-107 | an including mapper with a non-empty list that was constructed never panics in Map |
| Mapper.EmptyIncludingPanics | backend/src/lib/generics/mapper.go:86-161 | as written, `Including()` with no names validates nothing, yet Map copies a shared int field into a string field and panics |
| Mapper.NewGenericMapperIncludingChecked | backend/src/lib/generics/mapper.go:73-110 | the corrected constructor type-checks every shared field when the include list is empty |
| Mapper.IncludingCheckedNeverClashes | backend/src/lib/generics/mapper.go:73-161 | a mapper the corrected constructor accepts never panics in Map |
| Chroma.ColorCode | backend/src/lib/chroma/main.go:25-31 | ESC `[` code `m` for a known colour, code 39 for an unknown one |
| Chroma.FormatCode | backend/src/lib/chroma/main.go:33-39 | ESC `[` code `m` for a known format, code 0 for an unknown one |
| Chroma.ColorTable | backend/src/lib/chroma/main.go:6-14 | black to white are codes 30 to 37, and these eight are the only colours known |
| Chroma.Color | backend/src/lib/chroma/main.go:48-52 | wraps a string in the colour's code and the reset code |
| Chroma.Bold | backend/src/lib/chroma/main.go:54-56 | wraps in SGR 1 and reset |
| Chroma.Italic | backend/src/lib/chroma/main.go:58-60 | wraps in SGR 3 and reset |
| Chroma.Underline | backend/src/lib/chroma/main.go:62-64 | wraps in SGR 4 and reset |
| Chroma.Blink | backend/src/lib/chroma/main.go:66-68 | wraps in SGR 5 and reset |
| Chroma.Inverse | backend/src/lib/chroma/main.go:70-72 | wraps in SGR 7 and reset |
| Chroma.Hidden | backend/src/lib/chroma/main.go:74-76 | wraps in SGR 8 and reset |
| Chroma.Format | backend/src/lib/chroma/main.go:41-46 | the loop applies the functions left to right |
| Chroma.ApplyAllFirst | backend/src/lib/chroma/main.go:41-46 | the first function is applied first, the rest to its result |
| Chroma.FormatNests | backend/src/lib/chroma/main.go:41-56 | Format with Bold then a colour nests bold inside the colour, with two resets |
| Chroma.WrapperStrips | backend/src/lib/chroma/main.go:48-56 | removing the codes from a coloured or bold string gives the string back |
| Common.UuidString | backend/src/app/models/audit.model.go:28-30 | the canonical 36-character form with dashes at 8, 13, 18 and 23 |
| Common.UuidStringRoundTrip | backend/src/app/models/audit.model.go:28-30 | the string form identifies the UUID: it parses back to it |
| Common.NewPage | backend/src/lib/generics/pagination/pagination.go:11-13 | a page holding exactly the given content and numbers |
| Common.EmptyPage | backend/src/lib/generics/service/crud-service.go:291 | the zero page: no content and all numbers 0 |
| Models.BaseModel.BeforeCreate | backend/src/app/models/base.model.go:18-23 | a nil ID gets a non-nil one, any other ID is kept, and the error is always nil |
| Models.BaseModel.SetID | backend/src/app/models/base.model.go:25-31 | GetID then returns the ID set |
| Models.AuditEntity.GetName | backend/src/app/models/audit.model.go:28-30 | the 36-character string form of the ID, which parses back to the ID |
| Models.AuditEntity.SetAction | backend/src/app/models/audit.model.go:76-78 | GetAction returns the value; no other field changes |
| Models.AuditEntity.SetActionResult | backend/src/app/models/audit.model.go:80-82 | GetActionResult returns the value; no other field changes |
| Models.AuditEntity.SetMessage | backend/src/app/models/audit.model.go:84-86 | GetMessage returns the value; no other field changes |
| Models.AuditEntity.SetUserID | backend/src/app/models/audit.model.go:88-90 | GetUserID returns the value; no other field changes |
| Models.AuditEntity.SetEntity | backend/src/app/models/audit.model.go:92-94 | GetEntity returns the value; no other field changes |
| Models.AuditEntity.SetEntityID | backend/src/app/models/audit.model.go:96-98 | GetEntityID returns the value; no other field changes |
| Models.AuditEntity.SetNewValue | backend/src/app/models/audit.model.go:100-102 | GetNewValue returns the value; no other field changes |
| Models.AuditEntity.SetPrevValue | backend/src/app/models/audit.model.go:104-106 | GetPrevValue returns the value; no other field changes |
| Models.AuditEntity.SetLocation | backend/src/app/models/audit.model.go:108-110 | GetLocation returns the value; no other field changes |
| Models.AuditEntity.SetIP | backend/src/app/models/audit.model.go:112-114 | GetIP returns the value; no other field changes |
| Models.AuditEntity.SetUserAgent | backend/src/app/models/audit.model.go:116-118 | GetUserAgent returns the value; no other field changes |
| Models.PermissionEntity.ToString | backend/src/app/models/permission.model.go:40-42 | the entity, one `:`, then the operation; the first `:` separates them when the entity has none |
| Models.PermissionEntity.GetName | backend/src/app/models/permission.model.go:19-21 | the name is the ToString form |
| Models.PermissionEntity.SetEntity | backend/src/app/models/permission.model.go:24-30 | GetEntity returns the value; the operation is kept |
| Models.PermissionEntity.SetOperation | backend/src/app/models/permission.model.go:32-38 | GetOperation returns the value; the entity is kept |
| Models.UserEntity.SetRoles | backend/src/app/models/user.model.go:23-29 | GetRoles returns the roles set; the username and email are kept, and the identifier, held in its own object, is not touched |
| Models.UserEntity.GetPermissions | backend/src/app/models/user.model.go:31-37 | the loop concatenates the roles' permissions in role order |
| Models.FlattenMembers | backend/src/app/models/user.model.go:31-37 | a permission is in the user's list iff some role holds it |
| Models.FlattenLength | backend/src/app/models/user.model.go:31-37 | the list is as long as all roles' lists together, and empty without roles |
| Models.UserEntity.SetPermissions | backend/src/app/models/user.model.go:39-41 | changes nothing |
| AuditContext.WithAudit | backend/src/lib/generics/util/audit/audit.go:69-71 | GetAudit then returns the audit object stored; the caller, roles and permissions keys are kept |
| AuditContext.GetAudit | backend/src/lib/generics/util/audit/audit.go:73-80 | the stored audit object, or none (the nil pointer) when the key was never set |
| AuditContext.SetAction | backend/src/lib/generics/util/audit/audit.go:82-86 | with an audit present, the audit object itself is updated in place and only its action changes, so the context passed in sees the change too; the context returned holds that same object; without an audit, the nil-pointer panic |
| AuditContext.SetUserID | backend/src/lib/generics/util/audit/audit.go:88-92 | with an audit present, the audit object itself is updated in place and only its user ID changes, so the context passed in sees the change too; the context returned holds that same object; without an audit, the nil-pointer panic |
| AuditContext.SetEntity | backend/src/lib/generics/util/audit/audit.go:94-98 | with an audit present, the audit object itself is updated in place and only its entity changes, so the context passed in sees the change too; the context returned holds that same object; without an audit, the nil-pointer panic |
| AuditContext.SetEntityID | backend/src/lib/generics/util/audit/audit.go:100-104 | with an audit present, the audit object itself is updated in place and only its entity ID changes, so the context passed in sees the change too; the context returned holds that same object; without an audit, the nil-pointer panic |
| AuditContext.SetNewValue | backend/src/lib/generics/util/audit/audit.go:106-110 | with an audit present, the audit object itself is updated in place and only its new value changes, so the context passed in sees the change too; the context returned holds that same object; without an audit, the nil-pointer panic |
| AuditContext.SetLocation | backend/src/lib/generics/util/audit/audit.go:112-116 | with an audit present, the audit object itself is updated in place and only its location changes, so the context passed in sees the change too; the context returned holds that same object; without an audit, the nil-pointer panic |
| AuditContext.SetIP | backend/src/lib/generics/util/audit/audit.go:118-122 | with an audit present, the audit object itself is updated in place and only its IP changes, so the context passed in sees the change too; the context returned holds that same object; without an audit, the nil-pointer panic |
| AuditContext.SetUserAgent | backend/src/lib/generics/util/audit/audit.go:124-128 | with an audit present, the audit object itself is updated in place and only its user agent changes, so the context passed in sees the change too; the context returned holds that same object; without an audit, the nil-pointer panic |
| AuditContext.SetPrevValue | backend/src/lib/generics/util/audit/audit.go:130-134 | with an audit present, the audit object itself is updated in place and only its previous value changes, so the context passed in sees the change too; the context returned holds that same object; without an audit, the nil-pointer panic |
| Permission.AppendRolePermissions | backend/src/lib/generics/util/permission/permission.go:97-99 | the loop appends each role's permissions, in role order |
| Permission.GetFullPermissionList | backend/src/lib/generics/util/permission/permission.go:90-112 | the context's permissions, then the context roles', then the user's own, then the user's roles' |
| Permission.HasPermission | backend/src/lib/generics/util/permission/permission.go:114-122 | true iff some permission in that list matches both entity and operation |
| Permission.PermissionDenied | backend/src/lib/generics/util/permission/permission.go:124-126 | `permission denied: <op> <entity> for user ` followed by the caller's ID, which parses back to it |
| Permission.RolePermissionsMembers | backend/src/lib/generics/util/permission/permission.go:97-99 | a permission is in the roles' list iff some role holds it |
| Permission.FullPermissionListMembers | backend/src/lib/generics/util/permission/permission.go:90-112 | a permission is effective iff it comes from one of the four sources |
| Permission.GrantsBySet | backend/src/lib/generics/util/permission/permission.go:114-122 | only membership matters: a list containing every permission of another grants all it grants, whatever the order or duplicates |
| Permission.PermittedMonotone | backend/src/lib/generics/util/permission/permission.go:114-122 | adding permissions or roles to any of the four sources never withdraws a permission |
| Permission.NothingGrantedWithoutPermissions | backend/src/lib/generics/util/permission/permission.go:114-122 | with all four sources empty, nothing is permitted |
| Service.GroupByText | backend/src/lib/generics/service/crud-service.go:40-85 | a recognised group text names that group |
| Service.GroupTextRoundTrip | backend/src/lib/generics/service/crud-service.go:40-85 | each of the eleven operation groups is recognised by its own text |
| Service.HookByText | backend/src/lib/generics/service/crud-service.go:40-85 | a recognised hook text names that hook |
| Service.HookTextRoundTrip | backend/src/lib/generics/service/crud-service.go:40-85 | each of the 33 hook constants is recognised by its own text |
| Service.CrudServiceWithHooks.constructor | backend/src/lib/generics/service/crud-service.go:153-155 | a service over the repository with no hook set |
| Service.CrudServiceWithHooks.GetHook | backend/src/lib/generics/service/crud-service.go:644-715 | reports true, with the function, iff the name is known and its slot is set; otherwise nil and false |
| Service.CrudServiceWithHooks.AddHook | backend/src/lib/generics/service/crud-service.go:502-571 | a known name's slot gets the function, GetHook then returns it, and no other slot changes; an unknown name changes nothing |
| Service.CrudServiceWithHooks.RemoveHook | backend/src/lib/generics/service/crud-service.go:573-642 | a known name's slot is cleared and GetHook then reports false; no other slot changes; an unknown name changes nothing |
| Service.CrudServiceWithHooks.SetHook | backend/src/lib/generics/service/crud-service.go:725-855 | the typed setters: only the named slot changes |
| Service.CrudServiceWithHooks.SetRepo | backend/src/lib/generics/service/crud-service.go:717-723 | GetRepo then returns the repository set; the hooks are kept |
| Service.CrudServiceWithHooks.Invoke | backend/src/lib/generics/service/crud-service.go:157-500 | each of the thirteen operations runs Before, the repository, OnFail and After as RunOp specifies |
| Service.RunOp | backend/src/lib/generics/service/crud-service.go:157-500 | one operation: Before, then the repository unless vetoed, then AfterCall; its behaviour is stated by the lemmas below |
| Service.AfterCall | backend/src/lib/generics/service/crud-service.go:164-180 | OnFail after a failure, whose error wins and skips After; otherwise After, whose error wins; stated by Service.OnFailErrorReplaces, Service.AfterRunsAfterFailure and Service.AfterErrorOnSuccess |
| Service.BeforeErrorVetoes | backend/src/lib/generics/service/crud-service.go:157-162 | an error from Before is returned with the veto value, and the repository is never called |
| Service.VetoValues | backend/src/lib/generics/service/crud-service.go:157-500 | the veto value is the payload for Create/Update/UpdateField, a zero entity for FindOne, Associate, Dissociate, Random and First, an empty page for FindAll and ComboBox, 0 for Count and false for Exists |
| Service.OnFailErrorReplaces | backend/src/lib/generics/service/crud-service.go:164-171 | when the repository fails and OnFail returns an error, that error replaces the repository's and After does not run |
| Service.AfterRunsAfterFailure | backend/src/lib/generics/service/crud-service.go:166-180 | when the repository fails and OnFail is unset or silent, After still runs; its error wins, else the repository's error is returned |
| Service.AfterErrorOnSuccess | backend/src/lib/generics/service/crud-service.go:174-178 | after a success, an error from After is returned with the repository's result |
| Service.NoHooksPassThrough | backend/src/lib/generics/service/crud-service.go:157-500 | with no hooks set, every operation returns exactly what the repository returns |
| Service.SilentHooksPassThrough | backend/src/lib/generics/service/crud-service.go:157-500 | hooks that neither change the state nor fail change nothing |
| Service.BeforeOnly | backend/src/lib/generics/service/crud-service.go:157-180 | with only a Before hook installed, a call is either vetoed by it with the state it left, or is exactly the repository call on that state |
| Service.UpdateFieldSharesUpdateHooks | backend/src/lib/generics/service/crud-service.go:209-233 | UpdateField uses the Update slots, so it behaves as Update wherever the repository does |
| Service.HookArguments | backend/src/lib/generics/service/crud-service.go:235-306 | Delete hands its payload to OnFail/After; FindOne calls BeforeFind with one zero entity and FindAll with none; FindAll's After/OnFail receive the page content |
| Service.PanicSkipsHooks | backend/src/lib/generics/service/crud-service.go:164 | a panicking repository unwinds past OnFail and After |
| PermissionService.Check | backend/src/lib/impl/permission-service/permission-service.go:28-54 | nil iff the caller holds the permission, otherwise PermissionDenied; a context without a caller panics |
| PermissionService.NewPermissionService | backend/src/lib/impl/permission-service/permission-service.go:17-72 | a service over the given repository with exactly the six Before hooks installed |
| PermissionService.PermissionHooks | backend/src/lib/impl/permission-service/permission-service.go:28-70 | the six Before checks by slot; stated by PermissionService.CheckedOperation, UncheckedOperation and FindAllPanics |
| PermissionService.CheckedOperation | backend/src/lib/impl/permission-service/permission-service.go:28-70 | each checked operation reaches the wrapped service iff permitted; a denied one returns PermissionDenied with the state untouched |
| PermissionService.UncheckedOperation | backend/src/lib/impl/permission-service/permission-service.go:28-72 | Count, Exists, Random, First and ComboBox pass through unchecked |
| PermissionService.FindAllPanics | backend/src/lib/impl/permission-service/permission-service.go:35-40 | as written, every FindAll panics on `entities[0]`, whoever calls |
| PermissionService.CheckedFindAll | backend/src/lib/impl/permission-service/permission-service.go:35-40 | the corrected find check lets FindAll through iff READ is permitted, and denies otherwise |
| PermissionService.CheckedAgreesElsewhere | backend/src/lib/impl/permission-service/permission-service.go:28-70 | the correction changes FindAll only |
| AuditService.NewAuditService | backend/src/lib/impl/audit-service/audit-service.go:22-153 | a service over the given repository with exactly the fifteen audit hooks installed |
| AuditService.BeforeWrite | backend/src/lib/impl/audit-service/audit-service.go:32-39 | BeforeCreate, BeforeUpdate and BeforeDelete: action, entity name and ID, and the new value for create and update; stated by AuditService.RunAuditHook |
| AuditService.AfterSuccess | backend/src/lib/impl/audit-service/audit-service.go:41-46 | AfterCreate, AfterDelete and AfterAssoc: SUCCESS, then the record is stored; stated by AuditService.RunAuditHook |
| AuditService.AfterUpdate | backend/src/lib/impl/audit-service/audit-service.go:65-71 | SUCCESS and the updated entity as the previous value, then stored; stated by AuditService.RunAuditHook |
| AuditService.OnFailure | backend/src/lib/impl/audit-service/audit-service.go:48-54 | every OnFail hook: FAILURE and the error text, then stored; stated by AuditService.RunAuditHook |
| AuditService.BeforeFind | backend/src/lib/impl/audit-service/audit-service.go:104-112 | nothing without entities, else READ and the entity name; stated by AuditService.RunAuditHook |
| AuditService.AfterFind | backend/src/lib/impl/audit-service/audit-service.go:114-121 | nothing without entities, else SUCCESS and nothing stored; stated by AuditService.RunAuditHook |
| AuditService.BeforeAssoc | backend/src/lib/impl/audit-service/audit-service.go:131-135 | the ASSOCIATE action only; stated by AuditService.RunAuditHook |
| AuditService.AuditHooks | backend/src/lib/impl/audit-service/audit-service.go:31-150 | the fifteen hooks by slot; stated by AuditService.RunAuditHook and UnauditedPassThrough |
| AuditService.RunAuditHook | backend/src/lib/impl/audit-service/audit-service.go:22-153 | a hook is installed iff its group is create, update, delete, find or associate |
| AuditService.SuccessfulCreate | backend/src/lib/impl/audit-service/audit-service.go:32-46 | a successful create stores one record: CREATE, the entity name, its ID, the serialised payload, SUCCESS |
| AuditService.FailedCreateStoresTwoRecords | backend/src/lib/impl/audit-service/audit-service.go:41-54 | over an audit store that accepts repeated inserts of one object, a failed create stores the FAILURE record with the error text, then a second copy marked SUCCESS, and returns the original error |
| AuditService.FailingStoreReplacesError | backend/src/lib/impl/audit-service/audit-service.go:48-54 | when storing the failure record fails, that error is returned and nothing is stored |
| AuditService.SuccessfulUpdate | backend/src/lib/impl/audit-service/audit-service.go:56-71 | a successful update stores one SUCCESS record whose previous value is the serialised updated entity |
| AuditService.SuccessfulDelete | backend/src/lib/impl/audit-service/audit-service.go:81-94 | a successful delete stores one record: DELETE, entity name and ID, SUCCESS, the new value untouched |
| AuditService.SuccessfulFindStoresNothing | backend/src/lib/impl/audit-service/audit-service.go:104-121 | a successful find stores nothing |
| AuditService.FailedFindAll | backend/src/lib/impl/audit-service/audit-service.go:104-129 | a failed FindAll stores one FAILURE record with the error text |
| AuditService.SuccessfulAssociate | backend/src/lib/impl/audit-service/audit-service.go:131-142 | a successful associate stores one record with action ASSOCIATE |
| AuditService.UnauditedPassThrough | backend/src/lib/impl/audit-service/audit-service.go:22-153 | operations without audit hooks, Dissociate among them, pass straight through |
| AuditService.MissingAuditPanics | backend/src/lib/impl/audit-service/audit-service.go:32-135 | with no audit in the context, every audited Before hook panics and the repository is not called |
| GormScopes.AtLeastOne | backend/src/lib/impl/gorm-repository/gorm-scopes.go:18-23 | the value clamped to at least 1 |
| GormScopes.ScopePage | backend/src/lib/impl/gorm-repository/gorm-scopes.go:16-29 | a limit of the clamped size, and an offset of size times (clamped page minus 1), never negative |
| GormScopes.PreloadClauses | backend/src/lib/impl/gorm-repository/gorm-scopes.go:32-39 | one preload per relation, in order |
| GormScopes.ScopePreload | backend/src/lib/impl/gorm-repository/gorm-scopes.go:32-39 | the loop appends exactly those preloads |
| GormScopes.OrderColumn | backend/src/lib/impl/gorm-repository/gorm-scopes.go:45-49 | exactly `asc` orders by the field, any other direction by `field DESC` |
| GormScopes.OrderClauses | backend/src/lib/impl/gorm-repository/gorm-scopes.go:42-53 | one ordering per OrderBy, in order |
| GormScopes.ScopeOrder | backend/src/lib/impl/gorm-repository/gorm-scopes.go:42-53 | the loop appends exactly those orderings |
| GormScopes.ComparatorTable | backend/src/lib/impl/gorm-repository/gorm-scopes.go:121-148 | an unknown comparator gets the fragment of `eq`; a fragment has a placeholder iff the comparator takes a value |
| GormScopes.Compare | backend/src/lib/impl/gorm-repository/gorm-scopes.go:116-150 | no condition for a nil value; otherwise the field with its comparator's fragment, bound to the value exactly when the fragment has a placeholder |
| GormScopes.PlaceholderUnbound | backend/src/lib/impl/gorm-repository/gorm-scopes.go:122-147 | as written, a comparison with a placeholder is issued with no argument bound |
| GormScopes.Compose | backend/src/lib/impl/gorm-repository/gorm-scopes.go:77-114 | the composers' loop visits the children in order, as ComposeFrom specifies |
| GormScopes.ScopeFilter | backend/src/lib/impl/gorm-repository/gorm-scopes.go:56-63 | a missing filter adds no condition; a present one applies as written |
| GormScopes.ScopeFilterAsWritten | backend/src/lib/impl/gorm-repository/gorm-scopes.go:56-63 | a nil filter panics, a leaf adds nothing, a composite is composed; its leaf comparisons use the corrected GormScopes.Compare; stated by GormScopes.MissingFilterPanics, LeafAddsNothing and CompositeClausesOk |
| GormScopes.CompositeClauses | backend/src/lib/impl/gorm-repository/gorm-scopes.go:65-75 | and/or/not compose the children, any other operator is the nil-scope panic; stated by GormScopes.CompositeClausesOk and FlatComposite |
| GormScopes.MissingFilterPanics | backend/src/lib/impl/gorm-repository/gorm-scopes.go:56-63 | as written, a nil filter panics; the corrected scope gives no condition |
| GormScopes.CompositeClausesOk | backend/src/lib/impl/gorm-repository/gorm-scopes.go:65-75 | a composite applies iff every composite inside it has a known operator |
| GormScopes.ComposeFromOk | backend/src/lib/impl/gorm-repository/gorm-scopes.go:77-114 | the composers succeed iff every child from that point on does |
| GormScopes.ParsedKnown | backend/src/lib/impl/gorm-repository/gorm-scopes.go:65-75 | a filter the as-written parser accepts uses known operators only |
| GormScopes.ParsedNestedKnown | backend/src/lib/impl/gorm-repository/gorm-scopes.go:65-75 | so does one the corrected parser accepts |
| GormScopes.KnownFilterApplies | backend/src/lib/impl/gorm-repository/gorm-scopes.go:56-114 | a filter with known operators applies without panicking |
| GormScopes.ParsedFilterApplies | backend/src/lib/impl/gorm-repository/gorm-scopes.go:56-114 | every parsed filter applies without panicking |
| GormScopes.NestedFilterApplies | backend/src/lib/impl/gorm-repository/gorm-scopes.go:56-114 | every filter the corrected parser yields applies without panicking |
| GormScopes.LeafAddsNothing | backend/src/lib/impl/gorm-repository/gorm-scopes.go:58-61 | a top-level leaf adds no condition |
| GormScopes.FlatComposite | backend/src/lib/impl/gorm-repository/gorm-scopes.go:77-114 | a composite of leaves with values gives one condition per leaf, in order |
| GormRepository.EverythingUnfiltered | backend/src/lib/impl/gorm-repository/repository-gorm-impl.go:61-64 | the empty `and` that Total is counted under adds no condition |
| GormRepository.Count | backend/src/lib/impl/gorm-repository/repository-gorm-impl.go:74-78 | the database count under the filter's conditions, or the scope's panic; used by GormRepository.FindAllEnvelope |
| GormRepository.FindAll | backend/src/lib/impl/gorm-repository/repository-gorm-impl.go:48-72 | the page envelope; stated by GormRepository.FindAllEnvelope and PageReportedUnclamped |
| GormRepository.ComboBox | backend/src/lib/impl/gorm-repository/repository-gorm-impl.go:110-138 | FindAll's envelope with options as content; stated by GormRepository.ComboBoxEnvelope |
| GormRepository.Handle | backend/src/lib/impl/gorm-repository/repository-gorm-impl.go:22-138 | every repository operation as a reply and an error; stated by GormRepository.WritesPassThrough, ExistsIffRows, AssociationIgnoresStorage and GormRepoConfined |
| GormRepository.Options | backend/src/lib/impl/gorm-repository/repository-gorm-impl.go:132-135 | one (ID, name) option per row, in order |
| GormRepository.ComboOptions | backend/src/lib/impl/gorm-repository/repository-gorm-impl.go:132-135 | the loop builds exactly those options |
| GormRepository.FindAllEnvelope | backend/src/lib/impl/gorm-repository/repository-gorm-impl.go:48-72 | success iff the query and both counts succeed; then the rows found, the request's page and size unclamped, Total counted with no condition and Filtered under the filter; any error gives a zero page |
| GormRepository.ComboBoxEnvelope | backend/src/lib/impl/gorm-repository/repository-gorm-impl.go:110-138 | ComboBox has FindAll's envelope and error, with the options of the rows as content |
| GormRepository.PageReportedUnclamped | backend/src/lib/impl/gorm-repository/repository-gorm-impl.go:51-71 | a page below 1 is queried at offset 0 but reported as given |
| GormRepository.ExistsIffRows | backend/src/lib/impl/gorm-repository/repository-gorm-impl.go:92-96 | Exists is true iff the lookup affected a row, with the lookup's error |
| GormRepository.AssociationIgnoresStorage | backend/src/lib/impl/gorm-repository/repository-gorm-impl.go:80-90 | Associate and Dissociate return a zero entity and no error, whatever the database holds |
| GormRepository.WritesPassThrough | backend/src/lib/impl/gorm-repository/repository-gorm-impl.go:22-35 | Create, Update and UpdateField return the written row and the write's error unchanged |
| GormRepository.GormRepoConfined | backend/src/lib/impl/gorm-repository/repository-gorm-impl.go:22-138 | the repository touches neither the request context nor the audit store |
| Controller.Atoi | backend/src/lib/generics/controller/controller.go:295-301 | strconv.Atoi: a value only within int's range, and an error for the empty string |
| Controller.AtoiRoundTrip | backend/src/lib/generics/controller/controller.go:295-301 | every int, printed in decimal, reads back as itself |
| Controller.AtoiRejectsNonDigit | backend/src/lib/generics/controller/controller.go:295-301 | a non-digit after the optional sign is an error |
| Controller.ExtractPageable | backend/src/lib/generics/controller/controller.go:292-308 | each of page and size is its integer value when it reads as one, and 1 or 10 otherwise |
| Controller.PageableDefaults | backend/src/lib/generics/controller/controller.go:292-308 | missing parameters give page 1 of size 10 |
| Controller.PageablePassesIntegers | backend/src/lib/generics/controller/controller.go:292-308 | every int, zero and negatives included, passes through unclamped |
| Controller.ExtractFilter | backend/src/lib/generics/controller/controller.go:310-320 | no filter for an empty or unparsable parameter (the error is dropped), otherwise the parsed filter |
| Controller.ExtractFilterAsWritten | backend/src/lib/generics/controller/controller.go:310-320 | over filter.Parse as written: no filter for an empty parameter or a parse error, the parsed filter otherwise, and a parser panic ends the request |
| Controller.OpenFilterParameterPanics | backend/src/lib/generics/controller/controller.go:310-320 | as written, `filter=and(` panics inside the extractor with the slice panic |
| Controller.FlatFilterParameterAgrees | backend/src/lib/generics/controller/controller.go:310-320 | as written, a one-level composite of leaves free of `:` and `,` is read back as itself, as the corrected extractor reads it |
| Controller.FilterParameterRoundTrip | backend/src/lib/generics/controller/controller.go:310-320 | every well-formed filter, printed into the parameter, is read back as itself |
| Controller.ExtractedFilterApplies | backend/src/lib/generics/controller/controller.go:310-320 | with the corrected parser and scope, whatever the parameter holds, the filter read from it applies without panicking; as written, see Controller.OpenFilterParameterPanics and Controller.MissingFilterReachesScope |
| Controller.MalformedFilterDropped | backend/src/lib/generics/controller/controller.go:315-318 | a parameter with a single `:` is dropped as no filter |
| Controller.MissingFilterReachesScope | backend/src/lib/generics/controller/controller.go:312-314 | a missing parameter gives no filter, which the as-written scope panics on and the corrected one ignores |
| Controller.ExtractOrderBys | backend/src/lib/generics/controller/controller.go:322-332 | no orderings for an empty or unparsable parameter, otherwise the parsed ones |
| Controller.OrderParameterRoundTrip | backend/src/lib/generics/controller/controller.go:322-332 | a non-empty list of orderings free of `:` and `,` is read back as itself |
| Controller.ExtractRelations | backend/src/lib/generics/controller/controller.go:334-346 | no relations for an empty parameter, otherwise commas plus one segments that join back to it |
| Controller.RelationParameterRoundTrip | backend/src/lib/generics/controller/controller.go:334-346 | a list of comma-free relations that does not print as empty is read back as itself |
| Controller.ExtractRelationsByParse | backend/src/lib/generics/controller/controller.go:334-346 | the reader built on the relation parser agrees with ExtractRelations on every parameter |
| Controller.ListQueryAlwaysBuilt | backend/src/lib/generics/controller/controller.go:292-346 | with the corrected parser and scope, whatever the query string, the list statement for its page, filter, relations and order can be built |
| Composition.DeniedCallWritesNoAudit | backend/src/app/services/user.service.go:47-59 | in the user stack, a denied call returns PermissionDenied and leaves the world, audit store included, unchanged |
| Composition.PermittedFailedCreate | backend/src/app/services/user.service.go:47-59 | over an audit store that accepts repeated inserts of one object, a permitted create the repository rejects returns its error and leaves the two audit records |
| Composition.UserFindAllPanics | backend/src/app/services/user.service.go:47-59 | as written, every FindAll of the user service panics in the permission layer, and nothing is audited |
| Composition.UserFindAllChecked | backend/src/app/services/user.service.go:47-59 | with the corrected check, a caller allowed to READ users gets the audit layer's answer, and any other caller is denied |
| Composition.GormFailedCreate | backend/src/app/services/user.service.go:47-59 | over the GORM entity repository and an audit store that accepts repeated inserts of one object, a permitted create whose insert fails returns the insert's error and leaves two audit records |
| Composition.UserService | backend/src/app/services/user.service.go:47-59 | permission over audit over the repository, with the corrected find check; stated by the Composition lemmas above |
| Composition.UserServiceAsWritten | backend/src/app/services/user.service.go:47-59 | the same stack with the permission hooks as installed; stated by Composition.UserFindAllPanics |

## Left out

- JSON serialisation: `serializeEntity` is a fixed per-entity text (`Entity.json`), not `json.Marshal`.
- GORM's SQL generation and execution: the database is a parameter answering each list of clauses.
- The accumulated `db` that the composers hand to `compare` for each leaf (`db.Where(compare(f)(db))`) and into each nested group: a leaf gives only its own condition, and a nested group holds only its children's conditions.
- Strings are sequences of Unicode characters, not UTF-8 bytes. Go slices the composite text by bytes (`s[len(operator)+1 : len(s)-1]`), so the model and the source agree when the dropped last character is ASCII; for a multi-byte last character Go keeps its leading bytes, which the model does not (Filter.ParseComposite, Filter.ParseCompositeSpec, Filter.LastCharacterIgnored).
- Mapper.Map and the mapper constructors: shapes are flat lists of (name, type tag); a clash is inequality of the tags, not Go's assignability, so an `interface{}` output field that Go would fill is reported as a clash, and fields promoted from embedded structs (which `reflect.VisibleFields` also lists) are not modelled. The constructors' own checks use `Type !=`, which the tags model exactly.
- int64 overflow in `scopePage`'s offset and in the counts: integers are unbounded.
- GORM's primary-key conflict on the second insert of one audit object. The model's audit store accepts both inserts of a failed create, as the hooks ask. The deployed user service stores audits through GORM, where OnCreateFail's insert gives the object its ID and AfterCreate's insert of the same object fails on that key; since After's error wins, the real stack keeps only the FAILURE record and returns the duplicate-key error, not the repository's error. AuditService.FailedCreateStoresTwoRecords, Composition.PermittedFailedCreate and Composition.GormFailedCreate hold for a store that accepts repeated inserts.
- `AddHook`'s type assertions on `interface{}` arguments. Every hook has one uniform type, so a mistyped function cannot be passed.
- uuid randomness: `Models.BaseModel.BeforeCreate` only promises a non-nil ID.
- `GetAudit` returns an absent audit as `None`, not as the zero value of the audit type. The Set helpers then panic as the source does on the nil pointer.
- The audit decorator's hooks work on the audit record's value inside the `World`, not on the shared object: every hook of one request reads and writes that one record, so no aliasing between requests is modelled.
- Context getters for a missing user, roles or permissions key: the permission functions require them present, and `PermissionService.Check` reports their absence as a panic.
- `lib/generics/audit.go`, `role.model.go`'s getters and the repositories under `app/repositories` are thin wrappers and are not part of this model.
- HTTP handler bodies, routing and the URL query parsing itself: an absent parameter reads as the empty string.
- Controller.Atoi: takes Go's int to be 64 bits wide, as on the platforms the server targets.
- Controller.ExtractFilter: reads with the corrected nested parser, not `filter.Parse` as written; the as-written behaviour on a nested parameter is Filter.NestedCompositeMisparsed (Findings).
- Composition.UserService: uses the corrected find check; the stack as installed is Composition.UserServiceAsWritten (Findings).
- GormRepository.Handle: `Random` and `First` are modelled by what the database answers, not by how GORM picks a row.
- Payload hooks receive no entity for requests without one: they then return the index-out-of-range panic, which no operation triggers.
- The written specification says a failed create leaves one audit record. The hooks issue two inserts of one audit object; an audit store that accepts both keeps two records, and the model follows the hooks (AuditService.FailedCreateStoresTwoRecords). Over GORM the second insert is the key conflict described above.

## Findings

| source | as written | input that shows it | evidently intended | confidence | as-written member | corrected member |
|---|---|---|---|---|---|---|
| backend/src/lib/generics/filter/filter.go:227 | the children of a composite are split at every comma, brackets ignored | `and(or(a:eq:1,b:eq:2),c:eq:3)` | split only at commas outside brackets, so the nested doc-comment example parses | high, not executed | Filter.NestedCompositeMisparsed | Filter.NestedRoundTrip |
| backend/src/lib/generics/filter/filter.go:216 | `s[len(op)+1 : len(s)-1]` slices past its end on a short composite | `and(` | an error for an unclosed composite | high, not executed | Filter.OpenCompositePanics | Filter.ParseNestedNeverPanics |
| backend/src/lib/impl/permission-service/permission-service.go:35-40 | BeforeFind reads `entities[0]`, but FindAll calls it with no entities | any FindAll through the permission service | check READ on the service's entity name when no entity is given | high, not executed | PermissionService.FindAllPanics | PermissionService.CheckedFindAll |
| backend/src/lib/generics/mapper.go:86-107 | an empty include list passes validation unchecked, yet Map then copies every shared field | input `Age int`, output `Age string`, `Including()` | type-check every shared field when the include list is empty, as the default mapper does | medium, not executed | Mapper.EmptyIncludingPanics | Mapper.IncludingCheckedNeverClashes |
| backend/src/lib/impl/gorm-repository/gorm-scopes.go:56-63 | scopeFilter calls `IsComposite` on a nil filter, which the controller passes when the parameter is missing | a list request with no `filter` parameter | no condition for a missing filter | high, not executed | GormScopes.MissingFilterPanics | GormScopes.ScopeFilter |
| backend/src/lib/impl/gorm-repository/gorm-scopes.go:122-147 | `db.Where(field + " = ?")` passes no argument for the placeholder | `and(name:eq:bob)` | bind the leaf's value to the placeholder | high, not executed | GormScopes.PlaceholderUnbound | GormScopes.Compare |
