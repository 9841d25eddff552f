/** The course-selection queries of the data-access service (src/services/api.js).
    The cached tables that the source reads with `getItem` are passed in as a `Tables`
    value, and the icon-URL prefix and extension as strings. */
module Api {
  import opened Js
  import opened Objects

  /** `masterspecs[program]`: the specializations of one master's program. */
  datatype MasterSpec = MasterSpec(
    specKey: Entries<string>,         // spec id -> display name
    specs: Entries<seq<string>>,      // spec id -> ids of its courses
    courses: Entries<seq<string>>)    // course id -> ids of its specs

  datatype Tables = Tables(
    courses: Entries<Value>,                       // course id -> course info object
    programs: Entries<Entries<seq<string>>>,       // level -> program -> course ids
    masterspecs: Entries<MasterSpec>)              // program -> its specializations

  /** The two ways a query fails: the explicit throw for a specialization outside
      the master level, and the `TypeError` of reading a property of `undefined`. */
  datatype ApiError = SpecializationNeedsMaster | TypeError

  datatype Result<T> = Success(value: T) | Failure(error: ApiError)

  datatype LevelOption = LevelOption(value: string, text: string)

  datatype SpecOption = SpecOption(value: string, text: string, iconUrl: string)

  function SpecIconUrl(prefix: string, ext: string, id: string): string {
    prefix + id + ext
  }

  /** `getAllLevels`: one option per level, captioned by `caption`
      (capitalize after replaceUnderscore). */
  function GetAllLevels(programs: Entries<Entries<seq<string>>>, caption: string -> string): (r: seq<LevelOption>)
    ensures |r| == |programs|
    ensures forall i :: 0 <= i < |r| ==> r[i].value == programs[i].0 && r[i].text == caption(programs[i].0)
  {
    seq(|programs|, i requires 0 <= i < |programs| => LevelOption(programs[i].0, caption(programs[i].0)))
  }

  /** The options of a dropdown never repeat a value. */
  lemma LevelOptionsDistinct(programs: Entries<Entries<seq<string>>>, caption: string -> string)
    requires DistinctKeys(programs)
    ensures forall i, j :: 0 <= i < j < |programs| ==>
      GetAllLevels(programs, caption)[i].value != GetAllLevels(programs, caption)[j].value
  {
  }

  /** `getProgramsByLevel`: the program names of a level; reading an unknown level
      makes `Object.keys(undefined)` throw. */
  function GetProgramsByLevel(programs: Entries<Entries<seq<string>>>, level: string): (r: Result<seq<string>>)
    ensures level == "" ==> r == Success([])
    ensures level != "" && level !in Keys(programs) ==> r == Failure(TypeError)
    ensures level != "" && level in Keys(programs) ==>
      r.Success? && exists byProgram :: (level, byProgram) in programs && r.value == Keys(byProgram)
  {
    if level == "" then Success([])
    else match Lookup(programs, level)
      case None => Failure(TypeError)
      case Some(byProgram) => Success(Keys(byProgram))
  }

  /** `getMasterspecsByProgram`: one option per specialization of the program,
      none when the program has no specializations. */
  function GetMasterspecsByProgram(masterspecs: Entries<MasterSpec>, program: string,
                                   prefix: string, ext: string): (r: seq<SpecOption>)
    ensures program !in Keys(masterspecs) ==> r == []
    ensures program in Keys(masterspecs) ==>
      exists ms :: (program, ms) in masterspecs &&
        |r| == |ms.specKey| &&
        forall i :: 0 <= i < |r| ==>
          r[i] == SpecOption(ms.specKey[i].0, ms.specKey[i].1, SpecIconUrl(prefix, ext, ms.specKey[i].0))
  {
    match Lookup(masterspecs, program)
    case None => []
    case Some(ms) =>
      seq(|ms.specKey|, i requires 0 <= i < |ms.specKey| =>
        SpecOption(ms.specKey[i].0, ms.specKey[i].1, SpecIconUrl(prefix, ext, ms.specKey[i].0)))
  }

  /** The entries of `courses` whose key is in `ids`, in table order. */
  function FilterByIds(courses: Entries<Value>, ids: seq<string>): (r: Entries<Value>)
    ensures forall e :: e in r <==> e in courses && e.0 in ids
    ensures IsSubsequence(r, courses)
  {
    if courses == [] then []
    else
      var rest := FilterByIds(courses[1..], ids);
      assert forall e :: e in courses <==> e == courses[0] || e in courses[1..];
      if courses[0].0 in ids then [courses[0]] + rest else rest
  }

  /** `getCoursesByIds`: every course when `ids` is absent, otherwise the courses
      whose id is listed, in table order. */
  function GetCoursesByIds(courses: Entries<Value>, ids: Option<seq<string>>): (r: Entries<Value>)
    ensures ids.None? ==> r == courses
    ensures ids.Some? ==> forall e :: e in r <==> e in courses && e.0 in ids.value
    ensures IsSubsequence(r, courses)
  {
    match ids
    case None => SubsequenceOfItself(courses); courses
    case Some(list) => FilterByIds(courses, list)
  }

  lemma {:induction false} SubsequenceOfItself<T>(xs: seq<T>)
    ensures IsSubsequence(xs, xs)
  {
    if xs != [] {
      SubsequenceOfItself(xs[1..]);
    }
  }

  /** A filtered table never repeats a course, however often `ids` repeats an id. */
  lemma CoursesByIdsDistinct(courses: Entries<Value>, ids: Option<seq<string>>)
    requires DistinctKeys(courses)
    ensures DistinctKeys(GetCoursesByIds(courses, ids))
  {
    SubsequenceKeepsDistinctKeys(GetCoursesByIds(courses, ids), courses);
  }

  /** The filter depends on the set of ids only: order and repetition in `ids` do not matter. */
  lemma {:induction false} FilterDependsOnIdSetOnly(courses: Entries<Value>, ids1: seq<string>, ids2: seq<string>)
    requires forall k :: k in ids1 <==> k in ids2
    ensures FilterByIds(courses, ids1) == FilterByIds(courses, ids2)
  {
    if courses != [] {
      FilterDependsOnIdSetOnly(courses[1..], ids1, ids2);
    }
  }

  /** `specsPerCourseWithInfo[k]`: `{ specs: [...] }` for a course of the program,
      `undefined` for any other. */
  function SpecsOfCourse(ms: MasterSpec, k: string, prefix: string, ext: string): Value {
    match Lookup(ms.courses, k)
    case None => Undefined
    case Some(specIds) => Obj(map["specs" := SpecList(ms, specIds, prefix, ext)])
  }

  /** `v.map(id => ({ id, name: spec_key[id], iconUrl }))` for the spec ids `v` of one course. */
  function SpecList(ms: MasterSpec, specIds: seq<string>, prefix: string, ext: string): Value {
    Arr(seq(|specIds|, i requires 0 <= i < |specIds| => SpecInfo(ms, specIds[i], prefix, ext)))
  }

  /** `{ id, name: spec_key[id], iconUrl }` for one spec id. */
  function SpecInfo(ms: MasterSpec, id: string, prefix: string, ext: string): Value {
    var name := match Lookup(ms.specKey, id) case Some(n) => Str(n) case None => Undefined;
    Obj(map["id" := Str(id), "name" := name, "iconUrl" := Str(SpecIconUrl(prefix, ext, id))])
  }

  /** `courses.map(([k, v]) => [k, { ...v, ...specsPerCourseWithInfo[k] }])`. */
  function AttachSpecs(courses: Entries<Value>, ms: MasterSpec, prefix: string, ext: string): Entries<Value> {
    seq(|courses|, i requires 0 <= i < |courses| =>
      (courses[i].0, Obj(Spread(courses[i].1) + Spread(SpecsOfCourse(ms, courses[i].0, prefix, ext)))))
  }

  /** The course ids selected inside a program with specializations: every course
      of the program, or the courses of the chosen specialization (absent when the
      specialization is unknown, which selects every course). */
  function SpecCourseIds(ms: MasterSpec, masterspec: string): Option<seq<string>> {
    if masterspec == "" then Some(Keys(ms.courses)) else Lookup(ms.specs, masterspec)
  }

  /** `getCourses`: the courses for a level, program and specialization, as
      (id, info) entries. The empty string stands for a missing selection. */
  function GetCourses(t: Tables, level: string, program: string, masterspec: string,
                      prefix: string, ext: string): (r: Result<Entries<Value>>)
    ensures r == Failure(SpecializationNeedsMaster) <==> masterspec != "" && level != "master"
    ensures r.Success? ==> forall i :: 0 <= i < |r.value| ==> r.value[i].0 in Keys(t.courses)
  {
    if masterspec != "" && level != "master" then
      Failure(SpecializationNeedsMaster)
    else if level == "" then
      Success(GetCoursesByIds(t.courses, None))
    else if program == "" then
      match Lookup(t.programs, level)
      case None => Failure(TypeError)
      case Some(byProgram) => Success(GetCoursesByIds(t.courses, Some(Flatten(Values(byProgram)))))
    else if program !in Keys(t.masterspecs) || level != "master" then
      match Lookup(t.programs, level)
      case None => Failure(TypeError)
      case Some(byProgram) => Success(GetCoursesByIds(t.courses, Lookup(byProgram, program)))
    else
      var ms := Lookup(t.masterspecs, program).value;
      Success(AttachSpecs(GetCoursesByIds(t.courses, SpecCourseIds(ms, masterspec)), ms, prefix, ext))
  }

  /** No level selected: every course, in table order. */
  lemma GetCoursesWithoutLevel(t: Tables, program: string, prefix: string, ext: string)
    ensures GetCourses(t, "", program, "", prefix, ext) == Success(t.courses)
  {
  }

  /** A level without a program: the courses listed by any program of that level;
      an unknown level makes `Object.values(undefined)` throw. */
  lemma GetCoursesOfLevel(t: Tables, level: string, masterspec: string, prefix: string, ext: string)
    requires level != "" && (masterspec == "" || level == "master")
    ensures level !in Keys(t.programs) ==> GetCourses(t, level, "", masterspec, prefix, ext) == Failure(TypeError)
    ensures level in Keys(t.programs) ==>
      var byProgram := Lookup(t.programs, level).value;
      var r := GetCourses(t, level, "", masterspec, prefix, ext);
      r.Success? && IsSubsequence(r.value, t.courses) &&
      forall e :: e in r.value <==>
        e in t.courses && exists p :: 0 <= p < |byProgram| && e.0 in byProgram[p].1
  {
    if level in Keys(t.programs) {
      var byProgram := Lookup(t.programs, level).value;
      var ids := Flatten(Values(byProgram));
      forall k ensures k in ids <==> exists p :: 0 <= p < |byProgram| && k in byProgram[p].1 {
        if k in ids {
          var p :| 0 <= p < |Values(byProgram)| && k in Values(byProgram)[p];
          assert k in byProgram[p].1;
        }
        if exists p :: 0 <= p < |byProgram| && k in byProgram[p].1 {
          var p :| 0 <= p < |byProgram| && k in byProgram[p].1;
          assert k in Values(byProgram)[p];
        }
      }
    }
  }

  /** A program without specializations, or any program outside the master level:
      the courses that `programs[level][program]` lists, or every course when the
      level has no such program (`getCoursesByIds(undefined)`). */
  lemma GetCoursesOfPlainProgram(t: Tables, level: string, program: string, masterspec: string,
                                 prefix: string, ext: string)
    requires level != "" && program != "" && (masterspec == "" || level == "master")
    requires program !in Keys(t.masterspecs) || level != "master"
    ensures level !in Keys(t.programs) ==> GetCourses(t, level, program, masterspec, prefix, ext) == Failure(TypeError)
    ensures level in Keys(t.programs) ==>
      var byProgram := Lookup(t.programs, level).value;
      var r := GetCourses(t, level, program, masterspec, prefix, ext);
      r.Success? &&
      (program !in Keys(byProgram) ==> r.value == t.courses) &&
      (program in Keys(byProgram) ==>
         forall e :: e in r.value <==> e in t.courses && e.0 in Lookup(byProgram, program).value)
  {
  }

  /** A master's program with specializations: the selected courses are those the
      program lists when no specialization is chosen, those of the chosen
      specialization otherwise, and every course when that specialization is unknown;
      the selection is then decorated by `AttachSpecs`. */
  lemma GetCoursesOfSpecProgram(t: Tables, program: string, masterspec: string, prefix: string, ext: string)
    requires program != "" && program in Keys(t.masterspecs)
    ensures
      var ms := Lookup(t.masterspecs, program).value;
      var picked := GetCoursesByIds(t.courses, SpecCourseIds(ms, masterspec));
      GetCourses(t, "master", program, masterspec, prefix, ext) == Success(AttachSpecs(picked, ms, prefix, ext)) &&
      (masterspec == "" ==> forall e :: e in picked <==> e in t.courses && e.0 in Keys(ms.courses)) &&
      (masterspec != "" && masterspec in Keys(ms.specs) ==>
         forall e :: e in picked <==> e in t.courses && e.0 in Lookup(ms.specs, masterspec).value) &&
      (masterspec != "" && masterspec !in Keys(ms.specs) ==> picked == t.courses)
  {
  }

  /** Attaching spec info keeps every course, in order, with its id and its own
      fields, and adds `specs` exactly to the courses that the program lists. */
  lemma AttachSpecsKeepsFields(courses: Entries<Value>, ms: MasterSpec, prefix: string, ext: string)
    ensures
      var r := AttachSpecs(courses, ms, prefix, ext);
      |r| == |courses| &&
      forall i :: 0 <= i < |courses| ==>
        var (k, v) := courses[i];
        r[i].0 == k && r[i].1.Obj? &&
        (forall f :: f in Spread(v) && f != "specs" ==> f in r[i].1.props && r[i].1.props[f] == Spread(v)[f]) &&
        (k in Keys(ms.courses) ==>
           r[i].1.props == Spread(v)["specs" := SpecList(ms, Lookup(ms.courses, k).value, prefix, ext)]) &&
        (k !in Keys(ms.courses) ==> r[i].1.props == Spread(v))
  {
  }

  /** Each entry of a course's `specs` names one of its spec ids, in order, with the
      display name from `spec_key` and the icon URL built from the id. */
  lemma SpecListEntries(ms: MasterSpec, specIds: seq<string>, prefix: string, ext: string, j: nat, name: string)
    requires DistinctKeys(ms.specKey)
    requires j < |specIds| && (specIds[j], name) in ms.specKey
    ensures
      var list := SpecList(ms, specIds, prefix, ext);
      list.Arr? && |list.items| == |specIds| &&
      list.items[j] == Obj(map["id" := Str(specIds[j]), "name" := Str(name),
                               "iconUrl" := Str(prefix + specIds[j] + ext)])
  {
    LookupFindsEntry(ms.specKey, specIds[j], name);
  }

  /** A spec id that `spec_key` does not list gets an `undefined` name. */
  lemma SpecListEntryUnnamed(ms: MasterSpec, specIds: seq<string>, prefix: string, ext: string, j: nat)
    requires j < |specIds| && specIds[j] !in Keys(ms.specKey)
    ensures
      var list := SpecList(ms, specIds, prefix, ext);
      list.Arr? && |list.items| == |specIds| &&
      list.items[j] == Obj(map["id" := Str(specIds[j]), "name" := Undefined,
                               "iconUrl" := Str(prefix + specIds[j] + ext)])
  {
  }
}
