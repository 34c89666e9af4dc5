/** The record of one group, updated in place as the pass over the queue meets its occurrences. */
module GroupRecords {
  import opened Model
  import opened Text
  import opened Collections
  import opened Recognizers
  import opened Resolver
  import opened Knowledge

  class GroupRecord {
    const key: GroupKey
    const skill: string
    var prompt: string
    var phrasings: seq<string>
    var occurrences: nat
    var jobIds: seq<string>
    var companies: seq<string>
    var controlType: string
    var options: seq<string>
    var signatures: seq<multiset<string>>
    var required: bool
    var sensitivity: Sensitivity
    var suggested: string
    var source: Source
    var resolved: bool
    var absenceApproved: bool

    /** The group as it stands. */
    function Value(): Group
      reads this
    {
      Group(key, prompt, phrasings, occurrences, jobIds, companies, controlType, options, signatures, required,
            sensitivity, suggested, source, resolved, skill, absenceApproved)
    }

    constructor (q: Queued, r: Resolution, t: Tables)
      ensures Value() == Opened(q, r, t)
    {
      key, skill := KeyOf(AsQuestion(q), t), SkillOf(KeyOf(AsQuestion(q), t));
      prompt, controlType, sensitivity := q.prompt, q.controlType, r.sensitivity;
      phrasings, occurrences, jobIds, companies, options, signatures := [], 0, [], [], [], [];
      required, suggested, source, resolved, absenceApproved := false, "", SourceUnknown, false, false;
    }

    /** Folds one occurrence in. */
    method Merge(q: Queued, r: Resolution)
      modifies this
      ensures Value() == Merged(old(Value()), q, r)
    {
      hide TrimSpace, Signature, UnionOptions, Rank, Stricter, Appended, Merged;
      CountIn(q);
      TakeAnswer(r);
      TakeControl(q);
      MergedIs(old(Value()), Value(), q, r);
    }

    /** Counts the occurrence, and lists its application, company and wording unless they are listed. */
    method CountIn(q: Queued)
      modifies this`occurrences, this`jobIds, this`companies, this`phrasings
      ensures occurrences == old(occurrences) + 1 && jobIds == Appended(old(jobIds), q.jobId)
      ensures companies == if q.company == "" then old(companies) else Appended(old(companies), q.company)
      ensures phrasings ==
              if TrimSpace(q.prompt) == "" then old(phrasings) else Appended(old(phrasings), TrimSpace(q.prompt))
    {
      hide TrimSpace;
      occurrences := occurrences + 1;
      if q.jobId !in jobIds {
        jobIds := jobIds + [q.jobId];
      }
      if q.company != "" && q.company !in companies {
        companies := companies + [q.company];
      }
      var phrasing := TrimSpace(q.prompt);
      if phrasing != "" && phrasing !in phrasings {
        phrasings := phrasings + [phrasing];
      }
    }

    /** The strictest reading and the first answer win. */
    method TakeAnswer(r: Resolution)
      modifies this`sensitivity, this`suggested, this`source, this`resolved, this`absenceApproved
      ensures sensitivity == Stricter(old(sensitivity), r.sensitivity)
      ensures absenceApproved == (old(absenceApproved) || r.absence)
      ensures if r.resolved && old(suggested) == "" then suggested == r.answer && source == r.source && resolved
              else suggested == old(suggested) && source == old(source) && resolved == old(resolved)
    {
      sensitivity := Stricter(sensitivity, r.sensitivity);
      if r.resolved && suggested == "" {
        suggested, source, resolved := r.answer, r.source, true;
      }
      if r.absence {
        absenceApproved := true;
      }
    }

    /** A required occurrence makes the group required, free text beats a choice, and offered options are collected. */
    method TakeControl(q: Queued)
      modifies this`required, this`controlType, this`signatures, this`options
      ensures required == (old(required) || q.required)
      ensures controlType == if q.controlType == TEXT_AREA then TEXT_AREA else old(controlType)
      ensures signatures == if q.options == [] then old(signatures) else Appended(old(signatures), Signature(q.options))
      ensures options == if q.options == [] then old(options) else UnionOptions(old(options), q.options)
    {
      if q.required {
        required := true;
      }
      if controlType != TEXT_AREA && q.controlType == TEXT_AREA {
        controlType := TEXT_AREA;
      }
      if |q.options| > 0 {
        signatures := Appended(signatures, Signature(q.options));
        options := MergeOptions(options, q.options);
      }
    }

    /** Puts the group in the form it is shown in, once every occurrence has been seen. */
    method Finish()
      modifies this
      ensures Value() == Finalized(old(Value()))
    {
      hide Sort;
      var sorted := Sort(phrasings, Precedes);
      phrasings := sorted;
      for i := 0 to |sorted|
        invariant ShortestPrompt(old(prompt), sorted) == ShortestPrompt(prompt, sorted[i..])
        invariant Value() == old(Value()).(phrasings := sorted, prompt := prompt)
      {
        assert sorted[i..][0] == sorted[i] && sorted[i..][1..] == sorted[i + 1..];
        if prompt == "" || ByteLength(sorted[i]) < ByteLength(prompt) {
          prompt := sorted[i];
        }
      }
      assert sorted[|sorted|..] == [];
      jobIds := Sort(jobIds, Precedes);
      companies := Sort(companies, Precedes);
    }
  }

  /** A group merged field by field. */
  lemma MergedIs(g: Group, h: Group, q: Queued, r: Resolution)
    requires h.key == g.key && h.skill == g.skill && h.prompt == g.prompt && h.occurrences == g.occurrences + 1
    requires h.jobIds == Appended(g.jobIds, q.jobId)
    requires h.companies == if q.company == "" then g.companies else Appended(g.companies, q.company)
    requires h.phrasings ==
             if TrimSpace(q.prompt) == "" then g.phrasings else Appended(g.phrasings, TrimSpace(q.prompt))
    requires h.required == (g.required || q.required) && h.sensitivity == Stricter(g.sensitivity, r.sensitivity)
    requires h.absenceApproved == (g.absenceApproved || r.absence)
    requires if r.resolved && g.suggested == "" then h.suggested == r.answer && h.source == r.source && h.resolved
             else h.suggested == g.suggested && h.source == g.source && h.resolved == g.resolved
    requires h.controlType == if q.controlType == TEXT_AREA then TEXT_AREA else g.controlType
    requires h.signatures == if q.options == [] then g.signatures else Appended(g.signatures, Signature(q.options))
    requires h.options == if q.options == [] then g.options else UnionOptions(g.options, q.options)
    ensures h == Merged(g, q, r)
  {
    hide TrimSpace, Signature, UnionOptions, Stricter, Appended;
  }

  /** The options as they are compared. */
  function Comparable(options: seq<string>): set<string> {
    set k | 0 <= k < |options| :: ToLower(TrimSpace(options[k]))
  }

  lemma ComparableSnoc(options: seq<string>, option: string)
    ensures Comparable(options + [option]) == Comparable(options) + {ToLower(TrimSpace(option))}
  {
    hide TrimSpace, ToLower;
    var more := options + [option];
    assert forall k :: 0 <= k < |options| ==> more[k] == options[k];
    assert more[|options|] == option;
  }

  /** Adds the options not offered before, whatever their casing. */
  method MergeOptions(existing: seq<string>, incoming: seq<string>) returns (merged: seq<string>)
    ensures merged == UnionOptions(existing, incoming)
  {
    hide TrimSpace, ToLower;
    merged := existing;
    var seen := Comparable(existing);
    for i := 0 to |incoming|
      invariant UnionOptions(existing, incoming) == UnionOptions(merged, incoming[i..])
      invariant seen == Comparable(merged)
    {
      assert incoming[i..][0] == incoming[i] && incoming[i..][1..] == incoming[i + 1..];
      var option := TrimSpace(incoming[i]);
      TrimSpaceIdempotent(incoming[i]);
      assert ToLower(option) in seen <==>
             exists k :: 0 <= k < |merged| && ToLower(TrimSpace(merged[k])) == ToLower(option);
      if option == "" || ToLower(option) in seen {
        continue;
      }
      ComparableSnoc(merged, option);
      seen := seen + {ToLower(option)};
      merged := merged + [option];
    }
    assert incoming[|incoming|..] == [];
  }

  /** The records hold exactly these groups, each in a record of its own. */
  ghost predicate Mirrors(records: map<GroupKey, GroupRecord>, groups: map<GroupKey, Group>)
    reads records.Values
  {
    && records.Keys == groups.Keys
    && (forall k :: k in records ==> records[k].Value() == groups[k])
    && (forall k, j :: k in records && j in records && k != j ==> records[k] != records[j])
  }

  lemma MirrorsKeys(records: map<GroupKey, GroupRecord>, groups: map<GroupKey, Group>)
    requires Mirrors(records, groups)
    ensures records.Keys == groups.Keys
  {
  }

  /** Adds a record for a group that has none. */
  method OpenRecord(groups: map<GroupKey, GroupRecord>, key: GroupKey, q: Queued, r: Resolution, t: Tables,
                    ghost values: map<GroupKey, Group>)
    returns (records: map<GroupKey, GroupRecord>)
    requires Mirrors(groups, values) && key !in groups
    ensures Mirrors(records, values[key := Opened(q, r, t)]) && fresh(records.Values - groups.Values)
  {
    hide Opened;
    var record := new GroupRecord(q, r, t);
    records := groups[key := record];
  }

  /** Folds an occurrence into the record of its group; no other group's record changes. */
  method MergeInto(records: map<GroupKey, GroupRecord>, key: GroupKey, q: Queued, r: Resolution,
                   ghost values: map<GroupKey, Group>)
    requires Mirrors(records, values) && key in records
    modifies records[key]
    ensures key in values && Mirrors(records, values[key := Merged(values[key], q, r)])
  {
    hide Merged;
    records[key].Merge(q, r);
  }

  /** The same, with the groups not in `rest` finished. */
  ghost predicate Halfway(records: map<GroupKey, GroupRecord>, groups: map<GroupKey, Group>, rest: set<GroupKey>)
    reads records.Values
  {
    && records.Keys == groups.Keys
    && (forall k :: k in records ==> records[k].Value() == if k in rest then groups[k] else Finalized(groups[k]))
    && (forall k, j :: k in records && j in records && k != j ==> records[k] != records[j])
  }

  /** Finishes one more group, and reads what it is counted by. */
  method FinishOne(records: map<GroupKey, GroupRecord>, k: GroupKey, ghost groups: map<GroupKey, Group>,
                   ghost rest: set<GroupKey>)
    returns (policy: Policy, vary: bool, occurrences: nat)
    requires Halfway(records, groups, rest) && k in rest && k in records
    modifies records[k]
    ensures Halfway(records, groups, rest - {k})
    ensures policy == GroupPolicy(groups[k]) && vary == OptionsVary(groups[k]) && occurrences == groups[k].occurrences
  {
    hide Finalized, GroupPolicy, OptionsVary;
    var record := records[k];
    record.Finish();
    FinishingKeepsCounts(groups[k]);
    policy, vary, occurrences := GroupPolicy(record.Value()), OptionsVary(record.Value()), record.occurrences;
  }

  /** Nothing a group is counted by changes when it is finished. */
  lemma FinishingKeepsCounts(g: Group)
    ensures GroupPolicy(Finalized(g)) == GroupPolicy(g) && OptionsVary(Finalized(g)) == OptionsVary(g)
    ensures Finalized(g).occurrences == g.occurrences
  {
  }
}
