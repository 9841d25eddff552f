# EPFL interactive coursebook: course selection and graph renderer state

This project is a Dafny model of the two pieces of logic behind the interactive
coursebook:

- **The course-selection queries** of the data-access service (`src/services/api.js`).
  They build the dropdown options for levels, programs and specializations. They also
  select the courses for a level, a program and a specialization, and attach the
  specialization info to each course.
- **The state logic of the force-directed course graph** (`src/d3/graph.js`). This
  covers:
  - the reconciliation that `render` performs between the new node and link data and
    the live node and link objects;
  - the keyed joins that decide which circles and lines enter, update and exit;
  - the DOM ids of circles and lines;
  - the neighbourhood colour key;
  - the hover highlighting;
  - the drag pinning;
  - the fields of the force simulation that the renderer sets.

Modules:

- `Js` (js.dfy) holds the JavaScript values the code handles (`Value`), truthiness, the
  property read and the object spread.
- `Objects` (objects.dfy) treats a plain object as its `Object.entries` list. Entries
  keep enumeration order, which `getCoursesByIds` preserves. The module provides
  `Object.keys`/`values`, the property lookup, `[].concat(...xss)` and subsequences.
- `Api` (api.dfy) models the five queries. The cached tables that the source reads
  with `getItem` are passed in as a `Tables` value. An error is a `Result` failure:
  - `SpecializationNeedsMaster` for the explicit throw;
  - `TypeError` for a property read on `undefined`.
- `DomIds` (dom_ids.dfy) models `nodeId` and the string form of `linkId`.
- `KeyedJoin` (keyed_join.dfy) models the keyed data join of the selection library.
  - `JoinOf` is the join stated element by element.
  - `JoinByKey` is the three-pass loop that computes it, proved equal to `JoinOf`.
  - Lemmas prove the one-to-one matching and, for distinct keys, the
    enter/update/exit partition.
- `GraphRenderer` (graph.dfy) models the node and link objects as classes:
  - a `Node` has a constant `id` and mutable properties;
  - a `Link` has ends that are either an id or the node object that the link force put
    in its place.

  It also models the force `Simulation` reduced to `nodes`, `links`, `alpha` and
  `alphaTarget`, and the renderer `Graph` with:
  - the data bound to the live circles and lines;
  - the `isDragging` flag;
  - the opacity level of every circle and line by DOM id (three levels: `Low`,
    `Default`, `High`);
  - the outlined circles;
  - the log of calls into the hosting component (tooltip and click callbacks).

  `Graph.Valid()` is the invariant that render establishes and every handler keeps:
  - the simulation holds exactly the rendered nodes and links;
  - every rendered link has both ends resolved to node objects.

## Model

| member | source | states |
|---|---|---|
| DomIds.NodeId | src/d3/graph.js:319-321 | same length as the id; every character kept except `(` and `)`, which become `_`; the result has no parenthesis |
| DomIds.NodeIdKeepsPlainIds | src/d3/graph.js:319-321 | an id without parentheses is its own DOM id |
| DomIds.NodeIdIdempotent | src/d3/graph.js:319-321 | sanitizing a DOM id again changes nothing |
| DomIds.NodeIdMerges | src/d3/graph.js:319-321 | the replacement is not injective: the distinct ids `a(` and `a)` get the same DOM id |
| DomIds.LinkIdOf | src/d3/graph.js:331 | the line id of two string ends has no parenthesis and is as long as both ids plus the `--` separator |
| GraphRenderer.LinkId | src/d3/graph.js:323-332 | the line id is `nodeId(source) + "--" + nodeId(target)` of the ends' ids, the same whether the ends are id strings or resolved node objects |
| GraphRenderer.HoodKey | src/d3/graph.js:145-152 | `Both` iff both neighbour flags are truthy, `Ingoing`/`Outgoing` iff only that flag is, no key iff neither |
| GraphRenderer.NodeFill | src/d3/graph.js:138-164 | the neighbourhood table is used iff the hood key is set, and then with that key; otherwise the colour map is read with the node's value for the chosen parameter |
| GraphRenderer.NeighbourhoodColourOverridesParam | src/d3/graph.js:145-163 | the neighbourhood colour is used iff a neighbour flag is set, and then the colour parameter makes no difference |
| GraphRenderer.IndexById | src/d3/graph.js:455 | every rendered node's id is a key of the id map, and each key maps to a node with that id |
| GraphRenderer.IndexByIdMembers | src/d3/graph.js:455 | the id map only maps to rendered nodes |
| GraphRenderer.IndexByIdLastWins | src/d3/graph.js:455 | when ids repeat, the id map holds the last node with the id |
| GraphRenderer.MergeNodes | src/d3/graph.js:456 | one node per datum, in order, with the datum's id. For a known id it is the old object, its old properties overridden by every incoming one (x, y, vx, vy, fx, fy survive unless the datum has them). For a new id it is a fresh object holding exactly the datum. Old nodes that no datum names are untouched |
| GraphRenderer.CopyLinks | src/d3/graph.js:457 | one fresh link object per datum, in order, with the datum's ends as ids |
| KeyedJoin.JoinByKey | src/d3/graph.js:460-473 | the join the selection computes equals `JoinOf`: a datum updates the first old element with its key unless an earlier datum took that key, otherwise it enters; an old element stays iff it is the first with its key and some datum has that key |
| KeyedJoin.IndexByKey | src/d3/graph.js:460-461 | the first pass maps exactly the old keys to their first index and marks every repeated old key as exiting |
| KeyedJoin.ClaimKeys | src/d3/graph.js:460-461 | the second pass matches every datum as `MatchOf` says and leaves unclaimed exactly the old keys that no datum has |
| KeyedJoin.ExitUnclaimed | src/d3/graph.js:460-473 | the third pass sends to exit exactly the old elements that `Exits` names |
| KeyedJoin.FirstIndexOfFirst | src/d3/graph.js:460-461 | the first occurrence of a key is where the key index finds it |
| KeyedJoin.JoinMatchesOneToOne | src/d3/graph.js:460-505 | every updated element has the datum's key and does not exit; no two data update the same element; every element that does not exit is updated by some datum |
| KeyedJoin.JoinPartitionsKeys | src/d3/graph.js:460-505 | with distinct keys, a datum enters iff its key is new, and an old element exits iff its key is gone: every key is in exactly one of enter, update or exit |
| GraphRenderer.LinkKeyAsWritten | src/d3/graph.js:461 | the key as written: `source -> target` for id ends, and the same stale `[object Object] -> [object Object]` for any two resolved ends |
| GraphRenderer.LinkKeysAsWritten | src/d3/graph.js:461 | one key as written per bound link, in order |
| GraphRenderer.LinkKey | src/d3/graph.js:461 | the corrected key from the ends' ids, which equals the key as written for unresolved ends |
| GraphRenderer.LinkKeySurvivesResolution | src/d3/graph.js:461 | resolving a link's ends by the link force does not change its corrected key |
| GraphRenderer.AsWrittenRerenderReplacesEveryLink | src/d3/graph.js:461 | with the link key as written, after any render, re-rendering links whose source id does not start with `[` matches no old line: every line exits and every link enters |
| GraphRenderer.RerenderKeepsEveryLink | src/d3/graph.js:461 | with the key taken from the ends' ids, re-rendering the same distinct links updates every line in place, with nothing entering or exiting |
| GraphRenderer.Resolve | src/d3/graph.js:531 | the link force turns an id end into the node the id map holds for it (the last simulation node with that id) and keeps a node end's node |
| GraphRenderer.Simulation.SetNodes | src/d3/graph.js:529 | the simulation holds the given nodes and nothing else changes |
| GraphRenderer.Simulation.SetLinks | src/d3/graph.js:531 | the link force holds the given links and has resolved both ends of each one against the simulation's nodes; other fields keep their values |
| GraphRenderer.Simulation.SetAlpha | src/d3/graph.js:532 | sets `alpha` only |
| GraphRenderer.Simulation.SetAlphaTarget | src/d3/graph.js:418 | sets `alphaTarget` only |
| GraphRenderer.Graph.constructor | src/d3/graph.js:26-94 | a new renderer has no nodes and no links, is not dragging, has made no host calls and satisfies `Valid()` |
| GraphRenderer.Graph.Render | src/d3/graph.js:452-526 | keeps `Valid()`: the simulation holds exactly the merged nodes and the fresh link copies. The nodes are merged as `MergedFrom` says. There is one fresh link per datum, in order, whose ends are the rendered nodes the datum names. The node join is `JoinOf` the old and new node ids; the link join is `JoinOf` the old and new corrected link keys (see "## Left out"). Every circle and line returns to the default opacity and `alpha` is 1. Only a circle that updates (its datum's id was already rendered) keeps its outline; an entering circle is a new element without one. The drag flag and the host calls are unchanged |
| GraphRenderer.Graph.JoinNodes | src/d3/graph.js:455-511 | the node half of render: merged nodes, circle keys equal to the data ids, the node join, every circle at default opacity, links untouched; the outline survives only on circles that update, not on entering ones |
| GraphRenderer.Graph.JoinLinksAndRestart | src/d3/graph.js:457-533 | the link half of render and its closing restart: the fresh copies are joined by the corrected link key (see "## Left out"), every line is at default opacity, and the simulation holds the nodes and resolved copies with `alpha` 1 |
| GraphRenderer.Graph.JoinLinks | src/d3/graph.js:457-480 | one fresh link per datum, in order, with the datum's ends as ids; the join is `JoinOf` the old and new corrected link keys (see "## Left out"); every line is at default opacity; the nodes and every other renderer field are unchanged |
| GraphRenderer.Graph.RestartOnLinks | src/d3/graph.js:525-533 | after the restart on the rendered nodes and the fresh copies, `Valid()` holds, each copy runs between the rendered nodes its datum names, its corrected key is unchanged, `alpha` is 1 and `alphaTarget` is unchanged |
| GraphRenderer.Graph.RestartSimulation | src/d3/graph.js:528-533 | the simulation holds exactly the given nodes and links, every link end is resolved, `alpha` is 1 and `alphaTarget` is unchanged |
| GraphRenderer.Graph.MouseEnter | src/d3/graph.js:339-387 | while dragging, no state changes. Otherwise the tooltip is shown. For a node with no neighbour flag, exactly its circle and its neighbours' circles are high and every other circle is low; exactly the lines i→d for ingoing i and d→o for outgoing o are high and every other line is low; the node's circle is outlined if one is rendered. A flagged node changes no opacity |
| GraphRenderer.HighlightSetsMatch | src/d3/graph.js:364-383 | the DOM ids that mouseenter selects are exactly the hovered node, its one-hop neighbours and the links between them |
| GraphRenderer.Graph.MouseMove | src/d3/graph.js:389-400 | while dragging nothing changes; otherwise the pointer position goes to the tooltip and nothing else changes |
| GraphRenderer.Graph.MouseLeave | src/d3/graph.js:402-412 | while dragging nothing changes; otherwise the tooltip is hidden, every circle and line returns to default opacity and no circle stays outlined |
| GraphRenderer.Graph.DragStarted | src/d3/graph.js:415-431 | pins the node at its position (`fx = x`, `fy = y`), sets `isDragging`, hides the tooltip, and sets `alphaTarget` to 0.3 only when no other drag is active |
| GraphRenderer.Graph.Dragged | src/d3/graph.js:433-436 | moves the pin to the pointer and changes nothing else |
| GraphRenderer.Graph.DragEnded | src/d3/graph.js:438-450 | releases the pin (`fx = fy = null`), clears `isDragging`, and sets `alphaTarget` to 0 only when no other drag is active |
| GraphRenderer.Graph.Click | src/d3/graph.js:315-317 | reports the clicked node's id to the host and changes nothing else |
| Api.GetAllLevels | src/services/api.js:27-35 | one option per level, in table order, whose value is the level key and whose text is its caption |
| Api.LevelOptionsDistinct | src/services/api.js:29-33 | the level options never repeat a value |
| Api.GetProgramsByLevel | src/services/api.js:42-52 | `[]` for no level; a TypeError for an unknown level; otherwise the program names of that level |
| Api.GetMasterspecsByProgram | src/services/api.js:59-74 | `[]` for a program without specializations; otherwise one option per `spec_key` entry, in order, with value = key, text = name and icon URL = prefix + key + extension |
| Api.FilterByIds | src/services/api.js:87 | keeps exactly the course entries whose id is listed, as a subsequence of the table |
| Api.GetCoursesByIds | src/services/api.js:81-88 | every course when no ids are given; otherwise exactly the courses whose id is listed, in table order |
| Api.CoursesByIdsDistinct | src/services/api.js:81-88 | the result never repeats a course, even when the id list repeats an id |
| Api.FilterDependsOnIdSetOnly | src/services/api.js:87 | only the set of listed ids matters, not their order or repetition |
| Api.GetCourses | src/services/api.js:97-175 | the query throws the specialization error iff a specialization is chosen and the level is not master (src/services/api.js:103-107); every course it returns has an id of the course table |
| Api.GetCoursesWithoutLevel | src/services/api.js:112-114 | with no level, every course in table order |
| Api.GetCoursesOfLevel | src/services/api.js:115-121 | with a level and no program, exactly the courses some program of the level lists, in table order; a TypeError for an unknown level |
| Api.GetCoursesOfPlainProgram | src/services/api.js:122-127 | for a program without specializations, or outside the master level, exactly the courses `programs[level][program]` lists; every course when the level has no such program; a TypeError for an unknown level |
| Api.GetCoursesOfSpecProgram | src/services/api.js:128-147 | for a master's program with specializations, the picked courses are the ones the program lists when no specialization is chosen, the chosen specialization's when one is, and every course when it is unknown; the result is the picked courses with specs attached |
| Api.AttachSpecsKeepsFields | src/services/api.js:149-171 | every picked course keeps its id, its order and all its own fields, and gains `specs` iff the program lists it |
| Api.SpecListEntries | src/services/api.js:157-161 | the `specs` list has one entry per spec id of the course, in order; for an id `spec_key` lists, `name = spec_key[id]` and `iconUrl = prefix + id + extension` |
| Api.SpecListEntryUnnamed | src/services/api.js:157-161 | for a spec id `spec_key` does not list, the entry's `name` is `undefined` and its `iconUrl` is still `prefix + id + extension` |

## Left out

- Geometry and physics are not modelled: node radius, link clipping, collision, the
  tick handler, `centerGraph`, the force strengths and the simulation's integration
  (src/d3/graph.js:96-136, 166-312). The positions `x`, `y`, `vx`, `vy` are carried
  only as opaque node properties. The initial placement of a new node by the
  simulation is not modelled.
- GraphRenderer.Graph.Render and GraphRenderer.Simulation.SetNodes:
  `simulation.nodes(newNodes)` (src/d3/graph.js:529) also writes `index` on every
  node object and fills in `x`, `y`, `vx`, `vy` where they are missing. The model's
  `SetNodes` leaves the node objects as they are, so `MergedFrom` in `Render`'s
  post-state ("for a new id … exactly the datum") describes the nodes as they were
  before the restart.
- The exit transitions are not modelled: an exiting circle or line is reported by the
  join, but its fade-out and removal 1000 ms later are not. Zoom, cursors, strokes,
  arrow markers and the SVG construction are left out too.
- The colour tables (`nodeColorMap`, `nodeColorMapNeighborhood`) are not modelled:
  `NodeFill` returns which table entry is used, not the colour.
- Opacity is modelled as three levels rather than the numbers 0.45, 0.7 and 0.95.
- The callbacks into the hosting component are not modelled; they appear only as
  entries of the `calls` log. The tooltip position computation and the click handler
  of the host are not part of this model.
- The order of the two joins inside render is not modelled. The source joins the
  links first and `Graph.Render` joins the nodes first. The link join and the link
  copies do not read the nodes, so the order cannot be observed in this model. The
  restart comes last in both.
- GraphRenderer.Graph.Render: requires the node ids to be distinct. They are the keys
  of the course table, so they always are. With repeated ids, `MergedFrom` would not
  say which of the repeated merges a shared node keeps.
- GraphRenderer.Graph.Render: requires every link end to name a node of the same
  render. Otherwise the link force of the simulation library throws "node not found",
  and that error path is not modelled.
- GraphRenderer.Graph.MouseEnter: requires `ingoing` and `outgoing` to be arrays of
  objects with a string `id` when the highlight branch runs. Otherwise the source
  fails when it reads `.length` or `.id`, and that error path is not modelled.
- The `loadAllData` fetch and the browser storage behind `getItem` are not modelled;
  the tables are a parameter.
- The `util` helpers are parameters: the level caption (`capitalize` after
  `replaceUnderscore`) and the spec icon prefix and extension.
- Api.GetCourses: its own contract states only the throw and that every returned id
  is a course id. The result of each branch is stated by the `GetCoursesWithoutLevel`,
  `GetCoursesOfLevel`, `GetCoursesOfPlainProgram` and `GetCoursesOfSpecProgram`
  lemmas.
- The JavaScript number NaN is not modelled, so every number other than 0 counts as
  truthy. Prototype properties are not modelled either: only own properties are read.
- The combined selector strings (`"#a, #b"`) are modelled as the list of DOM ids
  they select, on the assumption that every DOM id is a valid CSS identifier.
- GraphRenderer.Graph.MouseEnter, GraphRenderer.Graph.DragStarted and
  GraphRenderer.Graph.DragEnded: every DOM id that `nodeId`/`linkId` produce is
  assumed to be a valid CSS identifier. For a node id such as `1A` or `CS.101`,
  `select`/`selectAll` (src/d3/graph.js:335, 369, 380) throw a SyntaxError part-way
  through the handler; in `dragended` this happens at line 446, before `isDragging`
  is cleared at line 449. These throw paths are not modelled: the three members
  always complete.
- GraphRenderer.Graph.MouseEnter: opacity and outline are kept per DOM id, not per
  circle. Two live circles whose ids differ only in `(` or `)` share one DOM id
  (`NodeIdMerges`). The source lowers both, but `select("#...")`
  (src/d3/graph.js:335, 364) raises and outlines only the first in document order.
  The model raises their shared entry.
- Api.AttachSpecs: `Spread` copies only the properties of a plain object. In
  JavaScript, `{ ...v }` (src/services/api.js:170) also copies the index properties
  of a string or an array. Course values in the course table are objects, so this
  case does not arise there.
- A node re-added while its old circle is still fading out does not cancel that exit.
  The fading circle is no longer in the live selection (src/d3/graph.js:455), so
  render merges the datum into a fresh object that enters.
- GraphRenderer.Graph.Render, GraphRenderer.Graph.JoinLinksAndRestart and
  GraphRenderer.Graph.JoinLinks: the link join is computed with the corrected key
  `LinkKey`, from the ends' ids. The key as written at src/d3/graph.js:461 makes
  every old line exit and every link enter on each render after the first (see
  "## Findings"). The three members do not model that behaviour; `AsWrittenRerenderReplacesEveryLink` states it separately.

## Findings

| source | as written | input that shows it | evidently intended | confidence | as-written member | corrected member |
|---|---|---|---|---|---|---|
| src/d3/graph.js:461 | The link key is `${d.source} -> ${d.target}`. After the first render, the link force has replaced both ends of every bound link with node objects, so each old key is `[object Object] -> [object Object]`. | Render links `[("A","B")]` on nodes A and B, then render the same data again. The old key is `[object Object] -> [object Object]` and the new key is `A -> B`, so the old line exits and a new line enters. | Key links by the ids of their ends, so a link kept across renders updates its line in place. | not executed | GraphRenderer.AsWrittenRerenderReplacesEveryLink | GraphRenderer.RerenderKeepsEveryLink |

`Graph.Render`, `Graph.JoinLinksAndRestart` and `Graph.JoinLinks` use the corrected key (`LinkKey`, from the ends' ids).
