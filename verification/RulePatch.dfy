/** Edit patches: section by section, field by field, merged into a rule object. */
module RulePatch {
  import opened Wrappers
  import opened GroupBy
  import opened Ordering
  import opened RuleTree

  type Fields = map<string, Json>

  /** Section name to field name to new value. */
  type Patch = map<string, Fields>

  // ---------------------------------------------------------------------------------
  // Which patches are accepted.
  // ---------------------------------------------------------------------------------

  const EDITABLE_FIELDS: map<string, set<string>> := map[
    "fingerprint" := {"version", "ignore_raw_key_issue_types"},
    "regression" := {
      "version", "min_side_issue_groups", "significant_occurrence_delta", "significant_affected_run_delta",
      "significant_affected_device_delta", "significant_affected_scenario_delta", "min_side_metric_sessions",
      "min_side_metric_samples", "significant_metric_delta_ratio"},
    "attribution" := {"version", "fallback_direction", "medium_confidence_score", "high_confidence_score", "rules"}]

  datatype PatchError = NotAnObject | UnsupportedSection | SectionNotAnObject | UnsupportedField | NothingToEdit

  /** The first complaint about one section of a raw patch, if any. */
  function SectionError(name: string, section: Json): Option<PatchError> {
    if name !in EDITABLE_FIELDS then Some(UnsupportedSection)
    else if !section.Obj? then Some(SectionNotAnObject)
    else if !(section.fields.Keys <= EDITABLE_FIELDS[name]) then Some(UnsupportedField)
    else None
  }

  /** A raw patch is accepted when every section is a known object of editable fields and some
      field is set; sections that set nothing are dropped. */
  function NormalizePatch(raw: Json): Result<Patch, PatchError> {
    if !raw.Obj? then Err(NotAnObject)
    else
      var bad := set s | s in raw.fields && SectionError(s, raw.fields[s]) != None;
      if bad != {} then Err(SectionError(SortedKeys(bad)[0], raw.fields[SortedKeys(bad)[0]]).value)
      else
        var patch :=
          map s | s in raw.fields && raw.fields[s].Obj? && raw.fields[s].fields != map[] :: raw.fields[s].fields;
        if patch == map[] then Err(NothingToEdit) else Ok(patch)
  }

  ghost predicate Editable(patch: Patch) {
    && patch != map[]
    && forall s :: s in patch ==> s in EDITABLE_FIELDS && patch[s] != map[] && patch[s].Keys <= EDITABLE_FIELDS[s]
  }

  /** Nothing is wrong with the sections of a raw patch, and some field is set. */
  ghost predicate IsClean(raw: Json) {
    && raw.Obj?
    && (forall s :: s in raw.fields ==> SectionError(s, raw.fields[s]) == None)
    && exists s, f :: s in raw.fields && f in raw.fields[s].fields
  }

  /** The patch sets exactly the fields that the raw patch sets, to the same values. */
  ghost predicate SetsTheSame(raw: Json, patch: Patch)
    requires raw.Obj?
  {
    && (forall s :: s in patch ==> s in raw.fields && raw.fields[s].Obj? && patch[s] == raw.fields[s].fields)
    && (forall s :: s in raw.fields && raw.fields[s].Obj? && raw.fields[s].fields != map[] ==> s in patch)
  }

  /** Exactly the raw patches without a wrong section and with some field set are accepted; the
      accepted patch is editable and sets exactly the same fields. */
  lemma AcceptedExactlyWhenClean(raw: Json)
    ensures NormalizePatch(raw).Ok? <==> IsClean(raw)
    ensures NormalizePatch(raw).Ok? ==>
        Editable(NormalizePatch(raw).value) && SetsTheSame(raw, NormalizePatch(raw).value)
  {
    if raw.Obj? {
      var bad := set s | s in raw.fields && SectionError(s, raw.fields[s]) != None;
      if bad == {} {
        forall s | s in raw.fields
          ensures SectionError(s, raw.fields[s]) == None
        {
          assert s !in bad;
        }
        var patch :=
          map s | s in raw.fields && raw.fields[s].Obj? && raw.fields[s].fields != map[] :: raw.fields[s].fields;
        if patch == map[] {
          forall s | s in raw.fields
            ensures raw.fields[s].fields == map[]
          {
            assert s !in patch;
          }
        } else {
          var s :| s in patch;
          var f :| f in patch[s];
          assert f in raw.fields[s].fields;
        }
      } else {
        var s :| s in bad;
        assert SectionError(s, raw.fields[s]) != None;
      }
    }
  }

  /** The fields that may be edited, section by section. */
  predicate IsEditable(section: string, key: string) {
    || (section == "fingerprint" && (key == "version" || key == "ignore_raw_key_issue_types"))
    || (section == "regression"
        && (key == "version" || key == "min_side_issue_groups" || key == "significant_occurrence_delta"
            || key == "significant_affected_run_delta" || key == "significant_affected_device_delta"
            || key == "significant_affected_scenario_delta" || key == "min_side_metric_sessions"
            || key == "min_side_metric_samples" || key == "significant_metric_delta_ratio"))
    || (section == "attribution"
        && (key == "version" || key == "fallback_direction" || key == "medium_confidence_score"
            || key == "high_confidence_score" || key == "rules"))
  }

  lemma EditableExactlyWhen(section: string, key: string)
    ensures section in EDITABLE_FIELDS && key in EDITABLE_FIELDS[section] <==> IsEditable(section, key)
  {
  }

  lemma SectionsAre(section: string)
    ensures section in EDITABLE_FIELDS
      <==> section == "fingerprint" || section == "regression" || section == "attribution"
  {
  }

  /** By name: a patch is accepted exactly when it is an object of sections named fingerprint,
      regression or attribution, each an object of editable fields, with at least one field. */
  lemma PatchAcceptedExactlyWhen(raw: Json)
    ensures NormalizePatch(raw).Ok?
      <==> && raw.Obj?
           && (forall s :: s in raw.fields ==>
                 && (s == "fingerprint" || s == "regression" || s == "attribution") && raw.fields[s].Obj?
                 && forall f :: f in raw.fields[s].fields ==> IsEditable(s, f))
           && exists s, f :: s in raw.fields && raw.fields[s].Obj? && f in raw.fields[s].fields
  {
    hide NormalizePatch, IsEditable;
    AcceptedExactlyWhenClean(raw);
    if raw.Obj? {
      forall s | s in raw.fields
        ensures SectionError(s, raw.fields[s]) == None
          <==> && (s == "fingerprint" || s == "regression" || s == "attribution") && raw.fields[s].Obj?
               && forall f :: f in raw.fields[s].fields ==> IsEditable(s, f)
      {
        SectionIsCleanExactlyWhen(s, raw.fields[s]);
      }
    }
  }

  lemma SectionIsCleanExactlyWhen(s: string, section: Json)
    ensures SectionError(s, section) == None
      <==> && (s == "fingerprint" || s == "regression" || s == "attribution") && section.Obj?
           && forall f :: f in section.fields ==> IsEditable(s, f)
  {
    hide IsEditable;
    SectionsAre(s);
    if section.Obj? && s in EDITABLE_FIELDS {
      forall f: string
        ensures f in EDITABLE_FIELDS[s] <==> IsEditable(s, f)
      {
        EditableExactlyWhen(s, f);
      }
    }
  }

  /** The two ways to ask for an edit: a whole patch, or one field of one section. */
  datatype EditRequest = EditRequest(section: Option<string>, key: Option<string>, value: Json, patch: Option<Json>)

  datatype EditError = BothForms | NoSectionOrKey | BadPatch(reason: PatchError)

  function NormalizeEdit(request: EditRequest): Result<Patch, EditError> {
    if request.patch.Some? && (request.section.Some? || request.key.Some?) then Err(BothForms)
    else if request.patch.None? && (request.section.None? || request.key.None?) then Err(NoSectionOrKey)
    else
      var raw :=
        if request.patch.Some? then request.patch.value
        else Obj(map[request.section.value := Obj(map[request.key.value := request.value])]);
      match NormalizePatch(raw)
      case Ok(patch) => Ok(patch)
      case Err(reason) => Err(BadPatch(reason))
  }

  /** A request gives a patch and neither section nor key, or both of these and no patch; a value
      for one field of one section is accepted exactly when the field may be edited, and becomes
      the patch that sets just it. */
  lemma FieldEditAcceptedExactlyWhen(request: EditRequest)
    ensures var answer := NormalizeEdit(request);
      match request
      case EditRequest(None, None, _, Some(raw)) =>
        (answer.Ok? <==> NormalizePatch(raw).Ok?) && (answer.Ok? ==> answer.value == NormalizePatch(raw).value)
      case EditRequest(Some(section), Some(key), value, None) =>
        (answer.Ok? <==> IsEditable(section, key)) && (answer.Ok? ==> answer.value == map[section := map[key := value]])
      case EditRequest(_, _, _, Some(_)) => answer == Err(BothForms)
      case EditRequest(_, _, _, None) => answer == Err(NoSectionOrKey)
  {
    if request.section.Some? && request.key.Some? && request.patch.None? {
      OneFieldIsAcceptedExactlyWhen(request.section.value, request.key.value, request.value);
    }
  }

  lemma OneFieldIsAcceptedExactlyWhen(section: string, key: string, value: Json)
    ensures var normalized := NormalizePatch(Obj(map[section := Obj(map[key := value])]));
      && (normalized.Ok? <==> IsEditable(section, key))
      && (normalized.Ok? ==> normalized.value == map[section := map[key := value]])
  {
    hide NormalizePatch, IsEditable, SectionError;
    var fields := map[key := value];
    var raw := Obj(map[section := Obj(fields)]);
    AcceptedExactlyWhenClean(raw);
    SectionIsCleanExactlyWhen(section, Obj(fields));
    EditableExactlyWhen(section, key);
    SectionsAre(section);
    assert section in raw.fields && raw.fields[section] == Obj(fields) && key in raw.fields[section].fields;
    assert raw.fields.Keys == {section} && fields.Keys == {key};
    if NormalizePatch(raw).Ok? {
      assert NormalizePatch(raw).value.Keys == {section};
    }
  }

  // ---------------------------------------------------------------------------------
  // The merge.
  // ---------------------------------------------------------------------------------

  /** The section an edit starts from: the existing object, or an empty one in its place. */
  function SectionOf(source: Fields, s: string): Fields {
    if s in source && source[s].Obj? then source[s].fields else map[]
  }

  function Merge(source: Fields, patch: Patch): Fields {
    map s | s in source.Keys + patch.Keys ::
      if s in patch then Obj(SectionOf(source, s) + patch[s]) else source[s]
  }

  lemma MergeOneMoreSection(source: Fields, part: Patch, s: string, updates: Fields)
    requires s !in part
    ensures SectionOf(Merge(source, part), s) == SectionOf(source, s)
    ensures Merge(source, part)[s := Obj(SectionOf(source, s) + updates)] == Merge(source, part[s := updates])
  {
  }

  lemma MergeNothing(source: Fields)
    ensures Merge(source, map[]) == source
  {
  }

  lemma OneFewerLeft(patch: Patch, sections: set<string>, s: string)
    requires s in sections && s in patch
    ensures (patch - sections)[s := patch[s]] == patch - (sections - {s})
  {
  }

  method MergeRulePatch(source: Fields, patch: Patch) returns (merged: Fields)
    ensures merged == Merge(source, patch)
  {
    hide Merge, SectionOf;
    merged := source;
    var sections := patch.Keys;
    ghost var part: Patch := map[];
    MergeNothing(source);
    while sections != {}
      invariant sections <= patch.Keys && part == patch - sections
      invariant merged == Merge(source, part)
      decreases sections
    {
      var s :| s in sections;
      MergeOneMoreSection(source, part, s, patch[s]);
      OneFewerLeft(patch, sections, s);
      var section := SetFields(SectionOf(merged, s), patch[s]);
      merged := merged[s := Obj(section)];
      sections, part := sections - {s}, part[s := patch[s]];
    }
    assert part == patch;
  }

  method SetFields(before: Fields, updates: Fields) returns (section: Fields)
    ensures section == before + updates
  {
    section := before;
    var names := updates.Keys;
    ghost var done := {};
    while names != {}
      invariant names <= updates.Keys && done == updates.Keys - names
      invariant section.Keys == before.Keys + done
      invariant forall f :: f in done ==> section[f] == updates[f]
      invariant forall f :: f in before && f !in done ==> section[f] == before[f]
      decreases names
    {
      var f :| f in names;
      section := section[f := updates[f]];
      names, done := names - {f}, done + {f};
    }
  }

  lemma LookupField(j: Json, s: string, f: string)
    requires j.Obj?
    ensures Lookup(j, [s, f])
         == if s in j.fields && j.fields[s].Obj? && f in j.fields[s].fields then Some(j.fields[s].fields[f]) else None
  {
    assert [s, f][1..] == [f];
    if s in j.fields && j.fields[s].Obj? {
      LookupKey(j.fields[s], f);
    }
  }

  /** Every patched field has its new value; every other field, and every section the patch does
      not name, is as it was. */
  lemma MergeSetsExactlyThePatchedFields(source: Fields, patch: Patch, s: string, f: string)
    ensures Lookup(Obj(Merge(source, patch)), [s, f])
         == if s in patch && f in patch[s] then Some(patch[s][f]) else Lookup(Obj(source), [s, f])
    ensures s !in patch ==> Lookup(Obj(Merge(source, patch)), [s]) == Lookup(Obj(source), [s])
  {
    LookupField(Obj(Merge(source, patch)), s, f);
    LookupField(Obj(source), s, f);
    LookupKey(Obj(Merge(source, patch)), s);
    LookupKey(Obj(source), s);
  }

  function FieldsFor(p: Patch, s: string): Fields {
    if s in p then p[s] else map[]
  }

  /** Field-wise: where both set a field, the second wins. */
  function Overlay(p: Patch, q: Patch): Patch {
    map s | s in p.Keys + q.Keys :: FieldsFor(p, s) + FieldsFor(q, s)
  }

  lemma UpdatesCompose(a: Fields, b: Fields, c: Fields)
    ensures (a + b) + c == a + (b + c)
    ensures a + map[] == a
  {
  }

  lemma SectionAfterMerge(source: Fields, p: Patch, s: string)
    ensures SectionOf(Merge(source, p), s) == SectionOf(source, s) + FieldsFor(p, s)
  {
    UpdatesCompose(SectionOf(source, s), map[], map[]);
  }

  /** One section of a merge, without unfolding the rest. */
  function MergedSection(source: Fields, p: Patch, s: string): Option<Json> {
    if s in p then Some(Obj(SectionOf(source, s) + FieldsFor(p, s)))
    else if s in source then Some(source[s])
    else None
  }

  lemma MergeBySection(source: Fields, p: Patch)
    ensures Merge(source, p).Keys == source.Keys + p.Keys
    ensures forall s :: s in Merge(source, p) ==> Some(Merge(source, p)[s]) == MergedSection(source, p, s)
  {
  }

  lemma MergeTwiceAt(source: Fields, p: Patch, q: Patch, s: string)
    ensures MergedSection(Merge(source, p), q, s) == MergedSection(source, Overlay(p, q), s)
  {
    SectionAfterMerge(source, p, s);
    UpdatesCompose(SectionOf(source, s), FieldsFor(p, s), FieldsFor(q, s));
    UpdatesCompose(FieldsFor(p, s), map[], map[]);
  }

  /** Merging one patch and then another is merging their overlay. */
  lemma MergeTwiceIsMergeOverlay(source: Fields, p: Patch, q: Patch)
    ensures Merge(Merge(source, p), q) == Merge(source, Overlay(p, q))
  {
    var twice, once := Merge(Merge(source, p), q), Merge(source, Overlay(p, q));
    MergeBySection(Merge(source, p), q);
    MergeBySection(source, p);
    MergeBySection(source, Overlay(p, q));
    assert twice.Keys == once.Keys;
    forall s | s in once
      ensures twice[s] == once[s]
    {
      MergeTwiceAt(source, p, q, s);
    }
    SameSections(twice, once);
  }

  lemma SameSections(m: Fields, n: Fields)
    requires m.Keys == n.Keys && forall s :: s in n ==> m[s] == n[s]
    ensures m == n
  {
  }

  lemma MergeIsIdempotent(source: Fields, p: Patch)
    ensures Merge(Merge(source, p), p) == Merge(source, p)
  {
    hide Merge;
    MergeTwiceIsMergeOverlay(source, p, p);
    OverlayOnItself(p);
  }

  lemma OverlayOnItself(p: Patch)
    ensures Overlay(p, p) == p
  {
    forall s | s in p
      ensures Overlay(p, p)[s] == p[s]
    {
      assert p[s] + p[s] == p[s];
    }
  }

  /** Two rule objects hold the same in a section, besides its patched fields. */
  predicate AgreeAt(a: Fields, b: Fields, patch: Patch, s: string) {
    if s in patch then SectionOf(a, s) - patch[s].Keys == SectionOf(b, s) - patch[s].Keys
    else (s in a <==> s in b) && (s in a && s in b ==> a[s] == b[s])
  }

  /** They hold the same outside the patch. */
  predicate AgreeOutside(a: Fields, b: Fields, patch: Patch) {
    forall s :: s in a.Keys + b.Keys + patch.Keys ==> AgreeAt(a, b, patch, s)
  }

  lemma UpdatesAgreeExactlyWhen(a: Fields, b: Fields, updates: Fields)
    ensures a + updates == b + updates <==> a - updates.Keys == b - updates.Keys
  {
    assert (a + updates) - updates.Keys == a - updates.Keys && (b + updates) - updates.Keys == b - updates.Keys;
    assert a + updates == (a - updates.Keys) + updates && b + updates == (b - updates.Keys) + updates;
  }

  lemma SectionsAgreeExactlyWhen(a: Fields, b: Fields, patch: Patch, s: string)
    ensures MergedSection(a, patch, s) == MergedSection(b, patch, s) <==> AgreeAt(a, b, patch, s)
  {
    UpdatesAgreeExactlyWhen(SectionOf(a, s), SectionOf(b, s), FieldsFor(patch, s));
  }

  lemma EqualMergesHaveEqualSections(a: Fields, b: Fields, patch: Patch, s: string)
    requires Merge(a, patch) == Merge(b, patch) && s in a.Keys + b.Keys + patch.Keys
    ensures MergedSection(a, patch, s) == MergedSection(b, patch, s)
  {
    MergeBySection(a, patch);
    MergeBySection(b, patch);
  }

  lemma SectionOfMerge(source: Fields, p: Patch, s: string)
    ensures s in Merge(source, p) <==> s in source.Keys + p.Keys
    ensures MergedSection(source, p, s) == if s in Merge(source, p) then Some(Merge(source, p)[s]) else None
  {
  }

  lemma EqualSectionsMakeEqualMerges(a: Fields, b: Fields, patch: Patch)
    requires forall s :: s in a.Keys + b.Keys + patch.Keys ==> MergedSection(a, patch, s) == MergedSection(b, patch, s)
    ensures Merge(a, patch) == Merge(b, patch)
  {
    hide Merge, MergedSection;
    var m, n := Merge(a, patch), Merge(b, patch);
    forall s
      ensures s in m <==> s in n
      ensures s in n ==> m[s] == n[s]
    {
      SectionOfMerge(a, patch, s);
      SectionOfMerge(b, patch, s);
    }
    assert m.Keys == n.Keys;
    SameSections(m, n);
  }

  /** Merging a patch into two rule objects gives the same exactly when they agree outside it. */
  lemma MergesAgreeExactlyWhen(a: Fields, b: Fields, patch: Patch)
    ensures Merge(a, patch) == Merge(b, patch) <==> AgreeOutside(a, b, patch)
  {
    hide Merge, MergedSection, AgreeAt;
    forall s
      ensures MergedSection(a, patch, s) == MergedSection(b, patch, s) <==> AgreeAt(a, b, patch, s)
    {
      SectionsAgreeExactlyWhen(a, b, patch, s);
    }
    if AgreeOutside(a, b, patch) {
      EqualSectionsMakeEqualMerges(a, b, patch);
    } else if Merge(a, patch) == Merge(b, patch) {
      var s :| s in a.Keys + b.Keys + patch.Keys && !AgreeAt(a, b, patch, s);
      EqualMergesHaveEqualSections(a, b, patch, s);
    }
  }

  // ---------------------------------------------------------------------------------
  // The diff of a merge.
  // ---------------------------------------------------------------------------------

  /** A path the patch is allowed to change: a patched section, or at or below a patched field. */
  ghost predicate Touches(patch: Patch, path: RuleTree.Path) {
    && path != [] && path[0] in patch
    && (|path| > 1 ==> path[1] in patch[path[0]])
  }

  /** The diff of an edit plan reports nothing outside the patched fields. */
  lemma DiffStaysInsidePatch(source: Fields, patch: Patch)
    ensures forall e :: e in DiffMapping([], Obj(source), Obj(Merge(source, patch))) ==> Touches(patch, e.path)
  {
    var merged := Merge(source, patch);
    EntriesAreDifferences(Obj(source), Obj(merged));
    forall e | e in DiffMapping([], Obj(source), Obj(merged))
      ensures Touches(patch, e.path)
    {
      OnlyPatchedPathsDiffer(source, patch, e);
    }
  }

  /** Outside the patched fields source and merged trees hold the same values. */
  lemma SameOutsidePatch(source: Fields, patch: Patch, path: RuleTree.Path)
    requires path != [] && !Touches(patch, path)
    ensures Lookup(Obj(source), path) == Lookup(Obj(Merge(source, patch)), path)
  {
    var merged, s := Merge(source, patch), path[0];
    if s in patch {
      var below := path[1..];
      assert below != [] && below[0] == path[1];
      assert s in source && !source[s].Obj? ==> Lookup(source[s], below) == None;
    }
  }

  lemma OnlyPatchedPathsDiffer(source: Fields, patch: Patch, e: Entry)
    requires IsDifference(Obj(source), Obj(Merge(source, patch)), e)
    ensures Touches(patch, e.path)
  {
    if e.path != [] && !Touches(patch, e.path) {
      SameOutsidePatch(source, patch, e.path);
    }
  }

  /** The fields already have these values, up to loose equality. */
  ghost predicate InForce(source: Fields, s: string, updates: Fields) {
    && s in source && source[s].Obj?
    && forall f :: f in updates ==> f in source[s].fields && LooselyEqual(source[s].fields[f], updates[f])
  }

  lemma SectionInForceExactlyWhen(source: Fields, s: string, updates: Fields)
    requires s in source
    ensures LooselyEqual(source[s], Obj(SectionOf(source, s) + updates)) <==> InForce(source, s, updates)
  {
    var merged := Obj(SectionOf(source, s) + updates);
    if source[s].Obj? {
      LooselyEqualObjects(source[s], merged);
    } else {
      assert Norm(merged).Obj? && !Norm(source[s]).Obj?;
    }
  }

  /** An edit plan shows no difference exactly when every patched field already has its value. */
  lemma PlanIsEmptyExactlyWhen(source: Fields, patch: Patch)
    ensures DiffMapping([], Obj(source), Obj(Merge(source, patch))) == []
       <==> forall s :: s in patch ==> InForce(source, s, patch[s])
  {
    hide SectionOf, Norm, InForce;
    var merged := Merge(source, patch);
    DiffIsEmptyExactlyWhenLooselyEqual([], Obj(source), Obj(merged));
    LooselyEqualObjects(Obj(source), Obj(merged));
    forall s | s in patch
      ensures InForce(source, s, patch[s]) <==> s in source && LooselyEqual(source[s], merged[s])
    {
      if s in source {
        SectionInForceExactlyWhen(source, s, patch[s]);
      } else {
        NotInForce(source, s, patch[s]);
      }
    }
  }

  lemma NotInForce(source: Fields, s: string, updates: Fields)
    requires s !in source
    ensures !InForce(source, s, updates)
  {
  }
}
