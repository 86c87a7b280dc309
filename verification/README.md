# Breadcrumbs and prescription panel — a Dafny model

This project models the logic of two view components of a medical-record web
front end:

- **Breadcrumbs** (`src/components/Common/Breadcrumbs.tsx`). The current path
  is split on `/`, and each piece becomes a crumb with a name, a uri and a style.
  A crumb's name is a per-segment replacement, else a fixed menu label, else the
  segment capitalised. Its uri is a replacement uri, else the path prefix that
  ends with that segment. Its style is a replacement style, else empty.
  Home always comes first. When there is more than one crumb, the middle
  collapses behind an ellipsis until the one-way "show full path" flag is set.
  The last crumb is plain text and every other crumb is a link. An optional
  Back control asks to navigate back unless its interceptor returns exactly `false`.
- **Prescription panel** (`src/components/Medicine/PrescriptionBuilder.tsx`).
  It issues one list query whose parameters are chosen by the props. It shows the
  fetched prescriptions with active ones first, using a stable sort. Each card
  gets a discontinue and an administer handler as the `actions` prop allows.
  It keeps three independent modal states: create, discontinue target and
  administer target. Closing a modal may trigger a refetch. The create form
  starts from a default record chosen by the PRN flag.

Files:

- `wrappers.dfy`: `Option`, standing for a value that may be `undefined`.
- `strings.dfy`: JavaScript's `split`/`join` on a one-character separator,
  `slice(0, n)` and `slice(1)`, with the lemmas relating them. These include
  `Join(Split(s)) == s` and "joining a prefix of the pieces gives a prefix of the string".
- `breadcrumbs.dfy`: module `Breadcrumbs`. The derivation and rendering are
  functions. Rendering takes the derived crumbs, as the component does. The
  component's state (the `showFullPath` flag and the recorded `goBack`
  requests) is the class `BreadcrumbsWidget`.
- `prescription_builder.dfy`: module `PrescriptionBuilder`. The query, the
  default record and the card gating are functions. The sort is a method that
  reorders an array in place, proved against the function `Partitioned`. The
  modal state is the class `PrescriptionPanel` with a refetch counter.

Capitalisation is proved equal to an independent character-by-character
definition (`UpperAtWordStarts`): a character is upper-cased exactly when it
starts a space-separated word. The lemmas about length, separators and
idempotence follow from that. The display order `Partitioned` is proved to be a
permutation, to put active records first and to be stable. It is also proved
to be the only order with those properties (`PartitionedIsUnique`).

The model follows the code in these places:

- Empty path pieces are kept. `"/a/"` gives two crumbs, `"/"` gives one crumb
  with an empty name, and `""` gives one crumb with an empty name and uri. The
  crumb list is never empty.
- `disabled` does not remove a card's handlers. The handlers depend only on
  `actions`, and `disabled` reaches the card only as `readonly`.
- The discontinue and administer targets are separate fields. Both can be set
  at once (`IndependentModals`).

## Model

| member | source | states |
|---|---|---|
| `Strings.SplitCount` | src/components/Common/Breadcrumbs.tsx:51-54 | splitting on `/` yields one more piece than there are separators, empty pieces included |
| `Strings.JoinSplit` | src/components/Common/Breadcrumbs.tsx:56-61 | re-joining the pieces of a split gives back the original path |
| `Strings.JoinPrefix` | src/components/Common/Breadcrumbs.tsx:58-61 | joining the first k pieces gives a prefix of the whole; one more piece appends `/` and that piece and strictly lengthens it |
| `Strings.Take` | src/components/Common/Breadcrumbs.tsx:60 | `slice(0, n)` keeps min(n, length) elements and is a prefix of the list |
| `Breadcrumbs.MenuTag` | src/components/Common/Breadcrumbs.tsx:12-21 | a label exists exactly for the eight menu keys, and each label is non-empty |
| `Breadcrumbs.UpperAtWordStartsAt` | src/components/Common/Breadcrumbs.tsx:23-28 | the reference definition keeps the length and upper-cases exactly the characters that start a word (first, or after a space) |
| `Breadcrumbs.SplitCapitalizeJoin` | src/components/Common/Breadcrumbs.tsx:23-28 | the split/upper-case-first/join pipeline equals the character-by-character reference definition of capitalisation |
| `Breadcrumbs.CapitalizeAt` | src/components/Common/Breadcrumbs.tsx:23-28 | after `_`/`-` become spaces, a character is upper-cased iff it is first or follows a space; every other character is unchanged |
| `Breadcrumbs.CapitalizeLength` | src/components/Common/Breadcrumbs.tsx:23-28 | capitalising keeps the length |
| `Breadcrumbs.CapitalizeNoSeparators` | src/components/Common/Breadcrumbs.tsx:23-28 | the result contains no `_` and no `-` |
| `Breadcrumbs.CapitalizeIdempotent` | src/components/Common/Breadcrumbs.tsx:23-28 | capitalising twice equals capitalising once |
| `Breadcrumbs.CapitalizeExample` | src/components/Common/Breadcrumbs.tsx:23-28 | `a-b_c` capitalises to `A B C` |
| `Breadcrumbs.Crumbs` | src/components/Common/Breadcrumbs.tsx:51-63 | crumbs are defined iff the path is; there is at least one, one per segment of the path after its first character, crumb i derived from segment i |
| `Breadcrumbs.CrumbCount` | src/components/Common/Breadcrumbs.tsx:51-54 | the number of crumbs is the number of `/` after the first character plus one |
| `Breadcrumbs.CrumbName` | src/components/Common/Breadcrumbs.tsx:55 | name is a non-empty replacement name, else the menu label, else the capitalised segment; an empty replacement name falls through |
| `Breadcrumbs.CrumbStyle` | src/components/Common/Breadcrumbs.tsx:62 | style is a non-empty replacement style, else empty |
| `Breadcrumbs.CrumbUriIsPrefix` | src/components/Common/Breadcrumbs.tsx:56-61 | without a replacement uri, every crumb's uri is a prefix of the path and the last crumb's uri is the whole path |
| `Breadcrumbs.SplitRooted` | src/components/Common/Breadcrumbs.tsx:51-61 | for a path starting with `/`, its pieces are an empty piece followed by the crumb segments |
| `Breadcrumbs.CrumbUriRooted` | src/components/Common/Breadcrumbs.tsx:56-61 | for a path starting with `/` and no replacement uri, crumb i's uri is `/` plus the first i+1 segments joined with `/` |
| `Breadcrumbs.CrumbUrisLengthen` | src/components/Common/Breadcrumbs.tsx:56-61 | along a rooted path, consecutive uris without replacement strictly lengthen |
| `Breadcrumbs.ReplacementIgnoresPosition` | src/components/Common/Breadcrumbs.tsx:55-62 | crumbs of equal segments at any two positions share name and style, and a replacement uri applies at both |
| `Breadcrumbs.RootPathExample` | src/components/Common/Breadcrumbs.tsx:51-63 | `/` gives the single crumb with an empty name, uri `/` and empty style |
| `Breadcrumbs.TrailingSlashExample` | src/components/Common/Breadcrumbs.tsx:51-54 | `/a/` gives two crumbs |
| `Breadcrumbs.FacilityLabelExample` | src/components/Common/Breadcrumbs.tsx:55 | a `facility` segment without a replacement is labelled `Facilities` at any position |
| `Breadcrumbs.RenderCrumb` | src/components/Common/Breadcrumbs.tsx:65-88 | a crumb renders as text iff it is the last one, otherwise as a link to its uri |
| `Breadcrumbs.RenderLeading` | src/components/Common/Breadcrumbs.tsx:137 | the expanded middle renders every crumb but the last, in order, at its own index |
| `Breadcrumbs.ViewStartsWithHome` | src/components/Common/Breadcrumbs.tsx:93-117 | Back appears iff not hidden and then first; Home comes next, and never again |
| `Breadcrumbs.ViewWithoutPath` | src/components/Common/Breadcrumbs.tsx:109-141 | without a path (no crumbs) only Back (unless hidden) and Home render |
| `Breadcrumbs.ViewSingleCrumb` | src/components/Common/Breadcrumbs.tsx:118-141 | a single crumb renders alone, as text, with or without the flag |
| `Breadcrumbs.ViewCollapsed` | src/components/Common/Breadcrumbs.tsx:118-141 | several crumbs, flag unset: the ellipsis, then only the last crumb as text |
| `Breadcrumbs.ViewExpanded` | src/components/Common/Breadcrumbs.tsx:118-141 | several crumbs, flag set: all crumbs in order, links except the last, which is text; no ellipsis |
| `Breadcrumbs.ViewTextOnlyLast` | src/components/Common/Breadcrumbs.tsx:65-84 | in every rendering the last item is the last crumb as text and no other item is text |
| `Breadcrumbs.ViewLinksAreLeading` | src/components/Common/Breadcrumbs.tsx:65-141 | every crumb link rendered is the link to the uri of a crumb other than the last, in crumb order |
| `Breadcrumbs.BackProceeds` | src/components/Common/Breadcrumbs.tsx:99-102 | a Back click is cancelled iff an interceptor is present and returns exactly `false` |
| `Breadcrumbs.BreadcrumbsWidget.constructor` | src/components/Common/Breadcrumbs.tsx:40-49 | a mounted widget starts collapsed, with no back navigation requested |
| `Breadcrumbs.BreadcrumbsWidget.ExpandPath` | src/components/Common/Breadcrumbs.tsx:130 | the ellipsis click sets the flag, so every later rendering is the expanded one |
| `Breadcrumbs.BreadcrumbsWidget.BackClick` | src/components/Common/Breadcrumbs.tsx:93-102 | a click records `goBack(backUrl)` unless the interceptor returned `false`; the flag never changes back |
| `PrescriptionBuilder.QueryFor` | src/components/Medicine/PrescriptionBuilder.tsx:46-54 | `dosage_type` is `PRN` iff `is_prn`; `limit` is 100; `prescription_type` and `discontinued` pass through unchanged |
| `PrescriptionBuilder.RegularCodesSplit` | src/components/Medicine/PrescriptionBuilder.tsx:49 | the regular query's list splits into `REGULAR` and `TITRATED` |
| `PrescriptionBuilder.RequestedFromCodes` | src/components/Medicine/PrescriptionBuilder.tsx:49 | the dosage types named by the two possible code lists |
| `PrescriptionBuilder.QueryDosageTypes` | src/components/Medicine/PrescriptionBuilder.tsx:49 | a PRN panel requests exactly the PRN dosage type, any other panel exactly regular and titrated |
| `PrescriptionBuilder.InitialDraft` | src/components/Medicine/PrescriptionBuilder.tsx:141-165 | the create form starts with route ORAL, dosage type PRN iff `is_prn` (else REGULAR), and the panel's `prescription_type` |
| `PrescriptionBuilder.DraftMatchesQuery` | src/components/Medicine/PrescriptionBuilder.tsx:141-146 | the create form's record has a dosage type and prescription type the panel's own query asks for |
| `PrescriptionBuilder.FilterAppend` | src/components/Medicine/PrescriptionBuilder.tsx:84 | grouping by `discontinued` distributes over concatenation |
| `PrescriptionBuilder.FilterUniform` | src/components/Medicine/PrescriptionBuilder.tsx:84 | a list whose records share one flag is its own group for that flag, and the other group is empty |
| `PrescriptionBuilder.PartitionedIsPermutation` | src/components/Medicine/PrescriptionBuilder.tsx:83-85 | the display order holds exactly the fetched records (same multiset) |
| `PrescriptionBuilder.PartitionedIsActiveFirst` | src/components/Medicine/PrescriptionBuilder.tsx:84 | no discontinued record precedes an active one |
| `PrescriptionBuilder.PartitionedIsStable` | src/components/Medicine/PrescriptionBuilder.tsx:84 | within each group records keep their fetch order |
| `PrescriptionBuilder.ActiveFirstSplits` | src/components/Medicine/PrescriptionBuilder.tsx:84 | a list with active records first is its active group followed by its discontinued group |
| `PrescriptionBuilder.PartitionedIsUnique` | src/components/Medicine/PrescriptionBuilder.tsx:84 | any active-first list with the same two groups in the same order is the display order |
| `PrescriptionBuilder.OrderingExample` | src/components/Medicine/PrescriptionBuilder.tsx:83-85 | a discontinued record fetched before an active one is shown after it |
| `PrescriptionBuilder.PartitionedLength` | src/components/Medicine/PrescriptionBuilder.tsx:84 | the display order has as many records as were fetched |
| `PrescriptionBuilder.Overwrite` | src/components/Medicine/PrescriptionBuilder.tsx:84 | the array ends up holding exactly the given records |
| `PrescriptionBuilder.Group` | src/components/Medicine/PrescriptionBuilder.tsx:84 | one pass over the array yields its active records and its discontinued records, each in order |
| `PrescriptionBuilder.SortByDiscontinued` | src/components/Medicine/PrescriptionBuilder.tsx:84 | sorting in place leaves the array holding the display order of its old contents |
| `PrescriptionBuilder.Cards` | src/components/Medicine/PrescriptionBuilder.tsx:83-102 | one card per fetched record |
| `PrescriptionBuilder.CardsContract` | src/components/Medicine/PrescriptionBuilder.tsx:86-101 | cards show a permutation of the records, active first; the discontinue handler is set iff `discontinue` is enabled, the administer handler iff `administer` is; `readonly` equals `disabled` |
| `PrescriptionBuilder.DefaultActionsOfferBoth` | src/components/Medicine/PrescriptionBuilder.tsx:38 | with the default `actions`, every card has both handlers |
| `PrescriptionBuilder.PrescriptionPanel.constructor` | src/components/Medicine/PrescriptionBuilder.tsx:33-44 | a mounted panel has no modal open and has requested no refetch |
| `PrescriptionBuilder.PrescriptionPanel.DiscontinueClick` | src/components/Medicine/PrescriptionBuilder.tsx:90-94 | the handler, present only when enabled, sets the discontinue target to exactly that record; nothing else changes |
| `PrescriptionBuilder.PrescriptionPanel.AdministerClick` | src/components/Medicine/PrescriptionBuilder.tsx:95-99 | the handler, present only when enabled, sets the administer target to exactly that record; nothing else changes |
| `PrescriptionBuilder.PrescriptionPanel.DiscontinueClose` | src/components/Medicine/PrescriptionBuilder.tsx:61-66 | closing clears the discontinue target and refetches exactly once iff `success`; other modal state unchanged |
| `PrescriptionBuilder.PrescriptionPanel.AdministerClose` | src/components/Medicine/PrescriptionBuilder.tsx:73-78 | closing clears the administer target and refetches exactly once iff `success`; other modal state unchanged |
| `PrescriptionBuilder.PrescriptionPanel.CreateClick` | src/components/Medicine/PrescriptionBuilder.tsx:105-110 | the create button opens the create modal unless the panel is disabled |
| `PrescriptionBuilder.PrescriptionPanel.CreateDone` | src/components/Medicine/PrescriptionBuilder.tsx:147-150 | a finished create closes the modal and always refetches once |
| `PrescriptionBuilder.PrescriptionPanel.CreateClose` | src/components/Medicine/PrescriptionBuilder.tsx:127 | dismissing the create dialog closes it without a refetch |

## Left out

- Markup and presentation: CSS classes, icons, translated labels and React `key`s have no behaviour here.
- Data fetching: `useQuery`, the consultation slug and what a refetch does. A refetch is a counter increment. The fetched `data.results` is an input array. A missing `data` (no list yet) is not modelled.
- Routing: `usePath` is an `Option<string>` input. `Link` is the uri on a `CrumbLink` item. `goBack` is a request appended to `backRequests`.
- Child components whose code is not part of this model: `DiscontinuePrescription`, `AdministerMedicine`, `CreatePrescriptionForm`, `PrescriptionDetailCard` (what `readonly` suppresses), `DialogModal`, `ButtonV2` and `AuthorizedForConsultationRelatedActions`. A disabled button is taken to ignore clicks, and the authorization gate is taken to be open.
- `compareBy` lives in a utilities file that is not part of this model. It is taken to order `false` before `true` and to call equal keys equal. With a stable `Array.sort`, that makes the order exactly `Partitioned`.
- SortByDiscontinued: the engine's sorting algorithm is not modelled, only the final order it leaves in the array. The method rearranges the array through two buffers.
- `Breadcrumbs.Upper`: `toUpperCase` is modelled for ASCII letters only. Unicode case mapping, including characters that upper-case to two characters, is not modelled.
- Lookups of prototype keys (such as `constructor`) in `MENU_TAGS` and in `replacements` are not modelled. Both are finite maps here.
- A modal's `success` argument and the optional `disabled` prop are `bool`s, with `undefined` read as `false`.
- Prescription records carry only `id`, `discontinued` and the dosage type. `prescription_type` and `route` are strings, because the record type's definition is not part of this model.
- React render scheduling and asynchronous fetch timing are not modelled. Neither has stated guarantees.
