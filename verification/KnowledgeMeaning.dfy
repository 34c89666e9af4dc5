/** What the groups and the readiness figures say about the queue itself. */
module KnowledgeMeaning {
  import opened Model
  import opened Text
  import opened Collections
  import opened Normalizer
  import opened Experience
  import opened Recognizers
  import opened Vault
  import opened Resolver
  import opened Knowledge
  import opened KnowledgeLaws
  import opened KnowledgeApproval
  import opened KnowledgeService

  // ----- which questions are one question

  /** Two questions share a group exactly when the same curated pattern answers to both; or none does and both ask about
      the same skill; or neither and they have the same key. */
  lemma GroupedExactly(q: Question, r: Question, t: Tables)
    ensures KeyOf(q, t) == KeyOf(r, t) <==>
            && PatternId(q, t) == PatternId(r, t)
            && (PatternId(q, t) == "" ==> SkillExperienceSubject(q, t) == SkillExperienceSubject(r, t))
            && (PatternId(q, t) == "" && SkillExperienceSubject(q, t) == "" ==>
                  QuestionKey(q.prompt, t) == QuestionKey(r.prompt, t))
    ensures KeyOf(q, t).PatternKey? <==> PatternId(q, t) != ""
    ensures KeyOf(q, t).SkillKey? <==> PatternId(q, t) == "" && SkillExperienceSubject(q, t) != ""
  {
    hide PatternId, SkillExperienceSubject, QuestionKey;
  }

  /** A question without a duration word, or without an experience word, is never grouped by skill. */
  lemma NoSkillGroupWithoutBoth(q: Question, t: Tables)
    requires (forall w :: w in Tokens(q.prompt, t) ==> w !in t.durationTokens)
             || (forall w :: w in Tokens(q.prompt, t) ==> w !in t.subjectTokens)
    ensures !KeyOf(q, t).SkillKey?
  {
    NoSubjectWithoutBoth(q, t);
    hide SkillExperienceSubject, Tokens, PatternId, QuestionKey;
  }

  /** How a group is presented: by its sensitivity first, and a routine one by whether and how the vault knows an
      answer. */
  lemma PolicyExactly(g: Group)
    ensures GroupPolicy(g) == HumanReview <==> g.sensitivity == Sensitive
    ensures GroupPolicy(g) == PerJob <==> g.sensitivity == GeneratePerJob
    ensures g.sensitivity == Routine ==>
              && (GroupPolicy(g) == Unknown <==> !g.resolved)
              && (GroupPolicy(g) == SafeAutoFill <==> g.resolved && g.source == SourcePattern)
              && (GroupPolicy(g) == SuggestAsk <==> g.resolved && g.source != SourcePattern)
  {
  }

  // ----- what a group shows

  /** The label is the first of the shortest among the first prompt and then the phrasings, blank prompts aside. */
  lemma {:induction false} LabelIsShortest(prompt: string, phrasings: seq<string>)
    requires forall k :: 0 <= k < |phrasings| ==> phrasings[k] != ""
    ensures var shown := ShortestPrompt(prompt, phrasings);
            && (prompt != "" ==> shown != "" && ByteLength(shown) <= ByteLength(prompt))
            && (forall p :: p in phrasings ==> shown != "" && ByteLength(shown) <= ByteLength(p))
            && (prompt != "" && ByteLength(prompt) == ByteLength(shown) ==> shown == prompt)
            && (shown != prompt ==> FirstSoShort(phrasings, shown))
    decreases |phrasings|
  {
    hide ByteLength;
    if phrasings != [] {
      var shorter := prompt == "" || ByteLength(phrasings[0]) < ByteLength(prompt);
      var next := if shorter then phrasings[0] else prompt;
      LabelIsShortest(next, phrasings[1..]);
      assert forall p :: p in phrasings <==> p == phrasings[0] || p in phrasings[1..];
      var shown := ShortestPrompt(prompt, phrasings);
      assert shown == ShortestPrompt(next, phrasings[1..]);
      if shown != prompt {
        if shown == phrasings[0] {
          assert FirstSoShort(phrasings, shown);
        } else {
          FirstSoShortLater(phrasings, shown);
        }
      }
    }
  }

  /** The wording stands in the list, and everything before it is longer. */
  ghost predicate FirstSoShort(phrasings: seq<string>, shown: string) {
    exists k :: 0 <= k < |phrasings| && phrasings[k] == shown
                && forall j :: 0 <= j < k ==> ByteLength(phrasings[j]) > ByteLength(shown)
  }

  lemma FirstSoShortLater(phrasings: seq<string>, shown: string)
    requires phrasings != [] && FirstSoShort(phrasings[1..], shown)
    requires ByteLength(phrasings[0]) > ByteLength(shown)
    ensures FirstSoShort(phrasings, shown)
  {
    hide ByteLength;
    var rest := phrasings[1..];
    var k :| 0 <= k < |rest| && rest[k] == shown
             && forall j :: 0 <= j < k ==> ByteLength(rest[j]) > ByteLength(shown);
    assert phrasings[k + 1] == shown;
    forall j | 0 <= j < k + 1
      ensures ByteLength(phrasings[j]) > ByteLength(shown)
    {
      assert j > 0 ==> phrasings[j] == rest[j - 1];
    }
  }

  /** The order in which a group's wordings, applications and employers are listed: a proper beginning comes first, and
      otherwise the first difference decides. */
  lemma {:induction false} PrecedesExactly(a: string, b: string)
    ensures Precedes(a, b) <==>
            (|a| < |b| && a <= b) || exists k :: 0 <= k < |a| && k < |b| && a[..k] == b[..k] && a[k] < b[k]
  {
    if a != "" && b != "" {
      var p, q := a[1..], b[1..];
      PrecedesExactly(p, q);
      assert a[..0] == b[..0];
      if a[0] == b[0] {
        assert a <= b <==> p <= q by {
          assert a == [a[0]] + p && b == [b[0]] + q;
        }
        if k :| 0 <= k < |p| && k < |q| && p[..k] == q[..k] && p[k] < q[k] {
          assert a[..k + 1] == [a[0]] + p[..k] && b[..k + 1] == [b[0]] + q[..k];
          assert a[k + 1] < b[k + 1];
        }
        if k :| 0 <= k < |a| && k < |b| && a[..k] == b[..k] && a[k] < b[k] {
          assert k > 0;
          assert p[..k - 1] == a[..k][1..] && q[..k - 1] == b[..k][1..];
          assert p[k - 1] < q[k - 1];
        }
      } else {
        forall k | 0 < k <= |a| && k <= |b|
          ensures a[..k] != b[..k]
        {
          assert a[..k][0] == a[0] && b[..k][0] == b[0];
        }
      }
    }
  }

  lemma {:induction false} OneWay(a: string, b: string)
    ensures !(Precedes(a, b) && Precedes(b, a))
    ensures a == b || Precedes(a, b) || Precedes(b, a)
  {
    if a != "" && b != "" {
      OneWay(a[1..], b[1..]);
      assert a[0] == b[0] && a[1..] == b[1..] ==> a == [a[0]] + a[1..] == b;
    }
  }

  lemma {:induction false} PrecedesTrans(a: string, b: string, c: string)
    requires !Precedes(b, a) && !Precedes(c, b)
    ensures !Precedes(c, a)
  {
    if a != "" && b != "" && c != "" && a[0] == b[0] == c[0] {
      PrecedesTrans(a[1..], b[1..], c[1..]);
    }
  }

  lemma PrecedesIsOrder()
    ensures StrictWeakOrder(Precedes)
    ensures forall s: seq<string> :: TotalOn(s, Precedes)
  {
    forall a, b
      ensures !(Precedes(a, b) && Precedes(b, a)) && (a == b || Precedes(a, b) || Precedes(b, a))
    {
      OneWay(a, b);
    }
    forall a, b, c | !Precedes(b, a) && !Precedes(c, b)
      ensures !Precedes(c, a)
    {
      PrecedesTrans(a, b, c);
    }
  }

  /** What a group lists, in what order. */
  ghost predicate ListsInOrder(listed: seq<string>, expected: string -> bool) {
    Distinct(listed) && Sorted(listed, Precedes) && forall x :: x in listed <==> expected(x)
  }

  lemma SortedList(recorded: seq<string>, expected: string -> bool)
    requires Distinct(recorded) && forall x :: x in recorded <==> expected(x)
    ensures ListsInOrder(Sort(recorded, Precedes), expected)
  {
    hide Precedes;
    PrecedesIsOrder();
    SortSorts(recorded, Precedes);
    SortPermutes(recorded, Precedes);
    DistinctPermutes(recorded, Sort(recorded, Precedes));
    SameMembers(Sort(recorded, Precedes), recorded);
  }

  function WordedSo(members: seq<Queued>): string -> bool {
    x => x != "" && exists i :: 0 <= i < |members| && TrimSpace(members[i].prompt) == x
  }

  function AskedBy(members: seq<Queued>): string -> bool {
    x => exists i :: 0 <= i < |members| && members[i].jobId == x
  }

  function NamedBy(members: seq<Queued>): string -> bool {
    x => x != "" && exists i :: 0 <= i < |members| && members[i].company == x
  }

  /** A shown group lists each wording, application and employer of its questions once, in order, and nothing else. */
  lemma ShownInOrder(e: Env, queue: seq<Queued>, k: GroupKey)
    requires GroupNow(e, queue, k).Some?
    ensures var g, members := GroupNow(e, queue, k).value, Filter(queue, InGroup(e, k));
            && ListsInOrder(g.phrasings, WordedSo(members)) && ListsInOrder(g.jobIds, AskedBy(members))
            && ListsInOrder(g.companies, NamedBy(members))
  {
    hide Collect, Filter, InGroup, Folded, Sort, Precedes, ListsInOrder, ShortestPrompt, TrimSpace;
    CollectGroups(e, queue, k);
    var members := Filter(queue, InGroup(e, k));
    var g := Folded(e, members);
    forall x
      ensures x in g.phrasings <==> WordedSo(members)(x)
      ensures x in g.jobIds <==> AskedBy(members)(x)
      ensures x in g.companies <==> NamedBy(members)(x)
      ensures Distinct(g.phrasings) && Distinct(g.jobIds) && Distinct(g.companies)
    {
      GroupRecordsPhrasings(e, members, x);
      GroupRecordsApplications(e, members, x);
      GroupRecordsCompanies(e, members, x);
    }
    GroupRecordsPhrasings(e, members, "");
    GroupRecordsApplications(e, members, "");
    GroupRecordsCompanies(e, members, "");
    SortedList(g.phrasings, WordedSo(members));
    SortedList(g.jobIds, AskedBy(members));
    SortedList(g.companies, NamedBy(members));
  }

  /** A group is approved on behalf of an employer exactly when its questions name one and only one. */
  lemma EmployerExactly(e: Env, members: seq<Queued>, employer: string)
    requires members != [] && employer != ""
    ensures QuestionFromGroup(Finalized(Folded(e, members)), e.tables).company == employer <==>
            && (exists q :: q in members && q.company == employer)
            && (forall q :: q in members && q.company != "" ==> q.company == employer)
  {
    hide Outcome, KeyOf, Folded, CanonicalPrompt, Sort, ShortestPrompt;
    var named := Folded(e, members).companies;
    SortPermutes(named, Precedes);
    SameMembers(Sort(named, Precedes), named);
    forall x
      ensures x in named <==> x != "" && exists q :: q in members && q.company == x
    {
      GroupRecordsCompanies(e, members, x);
      if i :| 0 <= i < |members| && members[i].company == x {
        assert members[i] in members;
      }
      if q :| q in members && q.company == x {
        var i :| 0 <= i < |members| && members[i] == q;
      }
    }
    GroupRecordsCompanies(e, members, employer);
    OnlyOne(named, employer);
    var shown := Sort(named, Precedes);
    assert |shown| == 1 ==> shown[0] in shown && named[0] in named && shown[0] == named[0];
    if forall y :: y in named ==> y == employer {
      forall q | q in members && q.company != ""
        ensures q.company == employer
      {
        assert q.company in named;
      }
    }
    assert forall y :: y in named ==> exists q :: q in members && q.company == y && y != "";
  }

  lemma OnlyOne<T>(s: seq<T>, x: T)
    requires Distinct(s)
    ensures (|s| == 1 && s[0] == x) <==> x in s && forall y :: y in s ==> y == x
  {
    if |s| > 1 {
      assert s[0] in s && s[1] in s;
    }
  }

  /** An option as it is compared. */
  function Compared(option: string): string {
    ToLower(TrimSpace(option))
  }

  function Comparison(): string -> string {
    (option: string) => Compared(option)
  }

  /** Two offers count as the same choices exactly when they hold the same options as often, in whatever order, up to
      case and surrounding blanks. */
  lemma {:induction false} SignatureExactly(options: seq<string>)
    ensures Signature(options) == multiset(Map(options, Comparison()))
  {
    hide TrimSpace, ToLower;
    if options != [] {
      SignatureExactly(options[1..]);
      assert options == [options[0]] + options[1..];
      MapConcat([options[0]], options[1..], Comparison());
      assert Map([options[0]], Comparison()) == [Compared(options[0])];
    }
  }

  ghost predicate Lists(options: seq<string>, c: string) {
    exists k :: 0 <= k < |options| && Compared(options[k]) == c
  }

  ghost predicate Brings(options: seq<string>, c: string) {
    exists k :: 0 <= k < |options| && TrimSpace(options[k]) != "" && Compared(options[k]) == c
  }

  lemma ListsSnoc(options: seq<string>, o: string, c: string)
    ensures Lists(options + [o], c) <==> Lists(options, c) || Compared(o) == c
  {
    hide TrimSpace, ToLower, Compared;
    var more := options + [o];
    if k :| 0 <= k < |options| && Compared(options[k]) == c {
      assert more[k] == options[k];
    }
    assert more[|options|] == o;
  }

  lemma BringsCons(options: seq<string>, c: string)
    requires options != []
    ensures Brings(options, c) <==>
            (TrimSpace(options[0]) != "" && Compared(options[0]) == c) || Brings(options[1..], c)
  {
    hide TrimSpace, Compared;
    if k :| 0 <= k < |options| && TrimSpace(options[k]) != "" && Compared(options[k]) == c && k > 0 {
      assert options[1..][k - 1] == options[k];
    }
    if k :| 0 <= k < |options[1..]| && TrimSpace(options[1..][k]) != "" && Compared(options[1..][k]) == c {
      assert options[k + 1] == options[1..][k];
    }
  }

  /** Merging keeps what was there and adds every non-blank option, up to case. */
  lemma {:induction false} UnionLists(existing: seq<string>, incoming: seq<string>, c: string)
    ensures Lists(UnionOptions(existing, incoming), c) <==> Lists(existing, c) || Brings(incoming, c)
    ensures existing <= UnionOptions(existing, incoming)
    decreases |incoming|
  {
    hide TrimSpace, ToLower;
    if incoming != [] {
      BringsCons(incoming, c);
      var option := TrimSpace(incoming[0]);
      TrimSpaceIdempotent(incoming[0]);
      var seen := exists k :: 0 <= k < |existing| && ToLower(TrimSpace(existing[k])) == ToLower(option);
      var next := if option == "" || seen then existing else existing + [option];
      assert Compared(option) == Compared(incoming[0]) == ToLower(option);
      ListsSnoc(existing, option, c);
      UnionLists(next, incoming[1..], c);
    }
  }

  /** No option is listed twice, and none is blank. */
  ghost predicate ListedOnce(options: seq<string>) {
    && (forall i, j :: 0 <= i < j < |options| ==> Compared(options[i]) != Compared(options[j]))
    && (forall i :: 0 <= i < |options| ==> options[i] != "")
  }

  lemma {:induction false} UnionListsOnce(existing: seq<string>, incoming: seq<string>)
    requires ListedOnce(existing)
    ensures ListedOnce(UnionOptions(existing, incoming))
    decreases |incoming|
  {
    hide TrimSpace, ToLower;
    if incoming != [] {
      var option := TrimSpace(incoming[0]);
      TrimSpaceIdempotent(incoming[0]);
      var seen := exists k :: 0 <= k < |existing| && ToLower(TrimSpace(existing[k])) == ToLower(option);
      var next := if option == "" || seen then existing else existing + [option];
      assert Compared(option) == ToLower(option);
      assert forall k :: 0 <= k < |existing| ==> Compared(existing[k]) == ToLower(TrimSpace(existing[k]));
      UnionListsOnce(next, incoming[1..]);
    }
  }

  /** A group lists each option once. */
  lemma {:induction false} GroupListsOnce(e: Env, members: seq<Queued>)
    requires members != []
    ensures ListedOnce(Folded(e, members).options)
  {
    hide Outcome, KeyOf, ListedOnce, UnionOptions, Signature, Appended, TrimSpace, Stricter;
    var before, q := members[..|members| - 1], members[|members| - 1];
    assert members == before + [q];
    FoldedSnoc(e, before, q);
    NothingListed("");
    if before != [] {
      GroupListsOnce(e, before);
    }
    UnionListsOnce(if before == [] then [] else Folded(e, before).options, q.options);
  }

  /** A group offers exactly the options its members offer, up to case and surrounding blanks. */
  lemma {:induction false} GroupOffersOptions(e: Env, members: seq<Queued>, c: string)
    requires members != []
    ensures Lists(Folded(e, members).options, c) <==> exists q :: q in members && Brings(q.options, c)
  {
    hide Outcome, KeyOf, Lists, Brings, UnionOptions, Signature, Appended, TrimSpace, Stricter;
    var before, q := members[..|members| - 1], members[|members| - 1];
    assert members == before + [q];
    FoldedSnoc(e, before, q);
    OptionsMerged(if before == [] then Opened(q, Outcome(e, q), e.tables) else Folded(e, before), q, Outcome(e, q), c);
    if before != [] {
      GroupOffersOptions(e, before, c);
    } else {
      NothingListed(c);
    }
    assert forall x :: x in members <==> x in before || x == q;
  }

  lemma NothingListed(c: string)
    ensures !Lists([], c) && !Brings([], c) && ListedOnce([])
  {
  }

  lemma OptionsMerged(g: Group, q: Queued, r: Resolution, c: string)
    ensures Lists(Merged(g, q, r).options, c) <==> Lists(g.options, c) || Brings(q.options, c)
  {
    hide Lists, Brings, UnionOptions, Signature, Appended, TrimSpace, Stricter;
    NothingListed(c);
    UnionLists(g.options, q.options, c);
  }

  /** A group is answered in a text area when any member is, and otherwise in the first member's control. */
  lemma {:induction false} GroupKeepsControl(e: Env, members: seq<Queued>)
    requires members != []
    ensures Folded(e, members).controlType ==
            if exists q :: q in members && q.controlType == TEXT_AREA then TEXT_AREA else members[0].controlType
  {
    hide Outcome, KeyOf, UnionOptions, Signature, Appended, TrimSpace, Stricter;
    var before, q := members[..|members| - 1], members[|members| - 1];
    assert members == before + [q];
    FoldedSnoc(e, before, q);
    if before != [] {
      GroupKeepsControl(e, before);
    }
    assert forall x :: x in members <==> x in before || x == q;
  }

  predicate Answers(e: Env, q: Queued) {
    Outcome(e, q).resolved && Outcome(e, q).answer != ""
  }

  /** A group suggests the first answer the vault has for a member, with where it came from; none when there is none. */
  lemma {:induction false} GroupSuggestsFirst(e: Env, members: seq<Queued>)
    requires members != []
    ensures Folded(e, members).suggested != "" <==> exists i :: 0 <= i < |members| && Answers(e, members[i])
    ensures forall i :: 0 <= i < |members| && Answers(e, members[i])
                        && (forall j :: 0 <= j < i ==> !Answers(e, members[j])) ==>
              Folded(e, members).suggested == Outcome(e, members[i]).answer
              && Folded(e, members).source == Outcome(e, members[i]).source
  {
    hide Outcome, KeyOf, UnionOptions, Signature, Appended, TrimSpace, Stricter;
    var n := |members| - 1;
    var before, q := members[..n], members[n];
    assert members == before + [q];
    FoldedSnoc(e, before, q);
    assert forall i :: 0 <= i < n ==> before[i] == members[i];
    if n > 0 {
      GroupSuggestsFirst(e, before);
    }
  }

  // ----- what an approval adds

  function HasWords(t: Tables): string -> bool {
    (p: string) => Normalize(p, t) != ""
  }

  /** A wording with words, and not just those it would be filed under. */
  function IsFurther(wording: string, t: Tables): string -> bool {
    (p: string) => Normalize(p, t) != "" && Normalize(p, t) != Normalize(wording, t)
  }

  /** What binding reports as added: the phrasings with recognizable text, repeated ones included. */
  lemma {:induction false} RecognizableCounts(prompts: seq<string>, t: Tables)
    ensures Recognizable(prompts, t) == |Filter(prompts, HasWords(t))|
  {
    hide Normalize;
    if prompts != [] {
      var p, rest := prompts[0], prompts[1..];
      RecognizableCounts(rest, t);
      assert prompts == [p] + rest && [] + [p] == [p];
      FilterConcat([p], rest, HasWords(t));
      FilterSnoc([], p, HasWords(t));
    }
  }

  lemma {:induction false} FurtherCounts(phrasings: seq<string>, wording: string, t: Tables)
    ensures Recognizable(ExtraPhrasings(phrasings, wording, t), t) == |Filter(phrasings, IsFurther(wording, t))|
  {
    hide Normalize;
    if phrasings != [] {
      var p, rest := phrasings[0], phrasings[1..];
      FurtherCounts(rest, wording, t);
      assert phrasings == [p] + rest && [] + [p] == [p];
      FilterConcat([p], rest, IsFurther(wording, t));
      FilterSnoc([], p, IsFurther(wording, t));
      assert ExtraPhrasings(phrasings, wording, t) ==
             (if Normalize(p, t) != Normalize(wording, t) then [p] else []) + ExtraPhrasings(rest, wording, t);
      var further := ExtraPhrasings(rest, wording, t);
      assert ([p] + further)[1..] == further && [] + further == further;
    }
  }

  /** How many phrasings an approval reports as added: those of the group that say something else than the wording it is
      filed under, and none for a declaration without the confirmation. */
  lemma PhrasingsAddedExactly(s: Stored, g: Group, confirmed: bool, t: Tables)
    requires s.id in s.vault.rows
    ensures PhrasingsAdded(s, g, confirmed, t) ==
            if s.vault.rows[s.id].sensitivity == Sensitive && !confirmed then 0
            else |Filter(g.phrasings, IsFurther(CanonicalPrompt(g, t), t))|
  {
    hide Recognizable, ExtraPhrasings, Filter, CanonicalPrompt;
    FurtherCounts(g.phrasings, CanonicalPrompt(g, t), t);
  }

  // ----- what the figures count

  /** The keys of the pending questions. */
  ghost function PendingKeys(e: Env, queue: seq<Queued>): set<GroupKey> {
    set q | q in queue && Pending(e, q) :: KeyOf(AsQuestion(q), e.tables)
  }

  /** Some pending question with the key was read so. */
  ghost predicate ReadAs(e: Env, queue: seq<Queued>, k: GroupKey, s: Sensitivity) {
    exists q :: q in queue && InGroup(e, k)(q) && Outcome(e, q).sensitivity == s
  }

  /** Two pending questions with the key offer different choices. */
  ghost predicate OffersDiffer(e: Env, queue: seq<Queued>, k: GroupKey) {
    exists q, r :: q in queue && r in queue && InGroup(e, k)(q) && InGroup(e, k)(r)
                   && q.options != [] && r.options != [] && Signature(q.options) != Signature(r.options)
  }

  /** One answer settles the key's questions in bulk. */
  ghost predicate InBulk(e: Env, queue: seq<Queued>, k: GroupKey) {
    !ReadAs(e, queue, k, Sensitive) && !ReadAs(e, queue, k, GeneratePerJob) && !OffersDiffer(e, queue, k)
  }

  lemma KeysCollected(e: Env, queue: seq<Queued>)
    ensures Collect(e, queue).groups.Keys == PendingKeys(e, queue)
  {
    hide Outcome, KeyOf, Collect, Pending;
    forall k
      ensures k in Collect(e, queue).groups <==> k in PendingKeys(e, queue)
    {
      CollectGroups(e, queue, k);
      FilterMembers(queue, InGroup(e, k));
      var members := Filter(queue, InGroup(e, k));
      assert members != [] ==> members[0] in members;
    }
  }

  /** What a collected group was read as. */
  lemma GroupRead(e: Env, queue: seq<Queued>, k: GroupKey)
    requires k in Collect(e, queue).groups
    ensures var g := Collect(e, queue).groups[k];
            && (GroupPolicy(g) == HumanReview <==> ReadAs(e, queue, k, Sensitive))
            && (GroupPolicy(g) == PerJob <==>
                  !ReadAs(e, queue, k, Sensitive) && ReadAs(e, queue, k, GeneratePerJob))
            && g.occurrences == |Filter(queue, InGroup(e, k))|
  {
    hide Outcome, KeyOf, Collect, Filter, Folded, GroupPolicy, InGroup;
    CollectGroups(e, queue, k);
    FilterMembers(queue, InGroup(e, k));
    var members := Filter(queue, InGroup(e, k));
    GroupReadsStrictest(e, members);
    PolicyReadsSensitivity(Collect(e, queue).groups[k]);
    AnyIsRead(e, queue, k, Sensitive);
    AnyIsRead(e, queue, k, GeneratePerJob);
  }

  lemma AnyIsRead(e: Env, queue: seq<Queued>, k: GroupKey, s: Sensitivity)
    ensures AnySensitivity(e, Filter(queue, InGroup(e, k)), s) <==> ReadAs(e, queue, k, s)
  {
    hide Outcome, Filter, InGroup;
    var members := Filter(queue, InGroup(e, k));
    FilterMembers(queue, InGroup(e, k));
    if i :| 0 <= i < |members| && Outcome(e, members[i]).sensitivity == s {
      assert members[i] in members;
    }
    if q :| q in queue && InGroup(e, k)(q) && Outcome(e, q).sensitivity == s {
      assert q in members;
      var i :| 0 <= i < |members| && members[i] == q;
    }
  }

  /** Whether a collected group's choices differ. */
  lemma GroupVaries(e: Env, queue: seq<Queued>, k: GroupKey)
    requires k in Collect(e, queue).groups
    ensures OptionsVary(Collect(e, queue).groups[k]) <==> OffersDiffer(e, queue, k)
  {
    hide Outcome, KeyOf, Collect, Filter, Folded, InGroup, Signature;
    CollectGroups(e, queue, k);
    FilterMembers(queue, InGroup(e, k));
    var members := Filter(queue, InGroup(e, k));
    var signatures := Folded(e, members).signatures;
    SignaturesAreDistinct(e, members);
    forall s
      ensures s in signatures <==> exists q :: q in members && Offers(q, s)
    {
      GroupRecordsSignatures(e, members, s);
    }
    if |signatures| > 1 {
      assert signatures[0] in signatures && signatures[1] in signatures && signatures[0] != signatures[1];
      var q :| q in members && Offers(q, signatures[0]);
      var r :| r in members && Offers(r, signatures[1]);
    }
    if q, r :| q in queue && r in queue && InGroup(e, k)(q) && InGroup(e, k)(r)
               && q.options != [] && r.options != [] && Signature(q.options) != Signature(r.options) {
      assert q in members && r in members && Offers(q, Signature(q.options)) && Offers(r, Signature(r.options));
      TwoMeansMany(signatures, Signature(q.options), Signature(r.options));
    }
  }

  lemma TwoMeansMany<T>(s: seq<T>, x: T, y: T)
    requires x in s && y in s && x != y
    ensures |s| > 1
  {
  }

  lemma GroupInBulk(e: Env, queue: seq<Queued>, k: GroupKey)
    requires k in Collect(e, queue).groups
    ensures Unlockable(Collect(e, queue).groups[k]) <==> InBulk(e, queue, k)
  {
    hide Collect, ReadAs, OffersDiffer, GroupPolicy, OptionsVary;
    GroupRead(e, queue, k);
    GroupVaries(e, queue, k);
  }

  /** How many questions each uninspected application asks. */
  ghost function AskedUninspected(queue: seq<Queued>, discovered: map<string, int>): map<string, int> {
    map j | j in (set q | q in queue :: q.jobId) && j !in discovered :: |Filter(queue, OfJob(j))|
  }

  lemma UninspectedIsAsked(e: Env, queue: seq<Queued>, discovered: map<string, int>)
    ensures Uninspected(CountsOf(Collect(e, queue)), discovered) == AskedUninspected(queue, discovered)
  {
    hide Collect, Filter;
    CollectCounts(e, queue);
    forall j
      ensures (if j in Collect(e, queue).perJob then Collect(e, queue).perJob[j] else 0) == |Filter(queue, OfJob(j))|
    {
      CollectPerJob(e, queue, j);
    }
  }

  /** The pending questions whose key can be answered in bulk. */
  ghost function BulkQuestions(e: Env, queue: seq<Queued>): Queued -> bool {
    q => Pending(e, q) && InBulk(e, queue, KeyOf(AsQuestion(q), e.tables))
  }

  function KeyedIn(e: Env, keys: set<GroupKey>): Queued -> bool {
    q => Pending(e, q) && KeyOf(AsQuestion(q), e.tables) in keys
  }

  ghost function SizesOf(e: Env, queue: seq<Queued>, keys: set<GroupKey>): map<GroupKey, int> {
    map k | k in keys :: |Filter(queue, InGroup(e, k))|
  }

  /** The questions with a key in a set are the questions of its keys, counted one key at a time. */
  lemma {:induction false} KeyedSum(e: Env, queue: seq<Queued>, keys: set<GroupKey>)
    ensures Sum(SizesOf(e, queue, keys)) == |Filter(queue, KeyedIn(e, keys))|
    decreases |keys|
  {
    hide Pending, KeyOf, Filter;
    if keys == {} {
      assert SizesOf(e, queue, keys) == map[];
      FilterNone(queue, KeyedIn(e, keys));
    } else {
      var k :| k in keys;
      KeyedSum(e, queue, keys - {k});
      FilterParts(queue, KeyedIn(e, keys), InGroup(e, k), KeyedIn(e, keys - {k}));
      assert SizesOf(e, queue, keys) == SizesOf(e, queue, keys - {k})[k := |Filter(queue, InGroup(e, k))|];
      SumUpdate(SizesOf(e, queue, keys - {k}), k, |Filter(queue, InGroup(e, k))|);
    }
  }

  /** The keys that can be answered in bulk. */
  ghost function BulkKeys(e: Env, queue: seq<Queued>): set<GroupKey> {
    set k | k in PendingKeys(e, queue) && InBulk(e, queue, k)
  }

  lemma UnlockableMeans(e: Env, queue: seq<Queued>)
    ensures UnlockableCounts(Collect(e, queue).groups) == SizesOf(e, queue, BulkKeys(e, queue))
  {
    KeysCollected(e, queue);
    hide Collect, PendingKeys, InBulk, Unlockable, Filter;
    forall k | k in Collect(e, queue).groups
      ensures Unlockable(Collect(e, queue).groups[k]) <==> InBulk(e, queue, k)
      ensures Collect(e, queue).groups[k].occurrences == |Filter(queue, InGroup(e, k))|
    {
      GroupInBulk(e, queue, k);
      GroupRead(e, queue, k);
    }
  }

  lemma BulkIsKeyed(e: Env, queue: seq<Queued>)
    ensures |Filter(queue, BulkQuestions(e, queue))| == Sum(SizesOf(e, queue, BulkKeys(e, queue)))
  {
    KeyedSum(e, queue, BulkKeys(e, queue));
    hide Pending, KeyOf, Filter, InBulk, Sum;
    FilterCongruent(queue, BulkQuestions(e, queue), KeyedIn(e, BulkKeys(e, queue)));
  }

  lemma MapSize<K, V>(m: map<K, V>)
    ensures |m| == |m.Keys|
  {
  }

  /** The keys some pending question of which is a declaration. */
  ghost function SensitiveKeys(e: Env, queue: seq<Queued>): set<GroupKey> {
    set k | k in PendingKeys(e, queue) && ReadAs(e, queue, k, Sensitive)
  }

  /** The keys without a declaration some pending question of which must be answered per job. */
  ghost function PerJobKeys(e: Env, queue: seq<Queued>): set<GroupKey> {
    set k | k in PendingKeys(e, queue) && !ReadAs(e, queue, k, Sensitive) && ReadAs(e, queue, k, GeneratePerJob)
  }

  /** Every figure about questions, said of the queue: a unique question is a key of the pending questions; a decision
      or a response is a key, by its strictest reading; and what can be unlocked are the questions whose key is routine
      throughout with the same choices. */
  lemma FiguresMean(e: Env, queue: seq<Queued>, discovered: map<string, int>)
    ensures var r := Summary(Collect(e, queue), discovered);
            && r.uniqueQuestions == |PendingKeys(e, queue)|
            && r.sensitiveDecisions == |SensitiveKeys(e, queue)| && r.perJobResponses == |PerJobKeys(e, queue)|
            && r.answersNeeded == |BulkKeys(e, queue)|
            && r.fieldsUnlockable == |Filter(queue, BulkQuestions(e, queue))|
  {
    hide Collect, PendingKeys, SensitiveKeys, PerJobKeys, BulkKeys, BulkQuestions, SizesOf, Filter, Sum, WithPolicy,
         UnlockableCounts, Uninspected;
    KeysCollected(e, queue);
    DecisionsMean(e, queue);
    UnlockableMeans(e, queue);
    BulkIsKeyed(e, queue);
    SizesKeys(e, queue);
    MapSize(SizesOf(e, queue, BulkKeys(e, queue)));
    MapSize(Collect(e, queue).groups);
  }

  lemma SizesKeys(e: Env, queue: seq<Queued>)
    ensures SizesOf(e, queue, BulkKeys(e, queue)).Keys == BulkKeys(e, queue)
  {
    hide BulkKeys, Filter;
  }

  /** Every figure about applications and occurrences: each application counts once, queued or discovered, and each
      blocked one once; the unresolved are the questions no answer fills. */
  lemma ApplicationsMean(e: Env, queue: seq<Queued>, discovered: map<string, int>)
    ensures var r := Summary(Collect(e, queue), discovered);
            && r.applications == |(set q | q in queue :: q.jobId) + discovered.Keys|
            && r.applicationsBlocked == |set q | q in queue && Pending(e, q) :: q.jobId|
            && r.unresolved == |Filter(queue, IsPending(e))| && r.absenceResolved == |Filter(queue, IsAbsence(e))|
  {
    hide Collect, Filter, Sum, WithPolicy, UnlockableCounts, Uninspected, Pending, IsPending, IsAbsence;
    CollectCounts(e, queue);
  }

  lemma DecisionsMean(e: Env, queue: seq<Queued>)
    ensures WithPolicy(Collect(e, queue).groups, HumanReview) == SensitiveKeys(e, queue)
    ensures WithPolicy(Collect(e, queue).groups, PerJob) == PerJobKeys(e, queue)
  {
    KeysCollected(e, queue);
    hide Collect, PendingKeys, ReadAs, GroupPolicy, Filter;
    forall k | k in Collect(e, queue).groups
      ensures GroupPolicy(Collect(e, queue).groups[k]) == HumanReview <==> ReadAs(e, queue, k, Sensitive)
      ensures GroupPolicy(Collect(e, queue).groups[k]) == PerJob <==>
              !ReadAs(e, queue, k, Sensitive) && ReadAs(e, queue, k, GeneratePerJob)
    {
      GroupRead(e, queue, k);
    }
  }

  /** The fields are those discovered, and where nothing was, those asked about; and never fewer than the unresolved. */
  lemma FieldsMean(e: Env, queue: seq<Queued>, discovered: map<string, int>)
    ensures var r := Summary(Collect(e, queue), discovered);
            var counted := Sum(discovered) + Sum(AskedUninspected(queue, discovered));
            && (counted >= r.unresolved ==> r.fields == counted)
            && (counted < r.unresolved ==> r.fields == r.unresolved)
            && r.resolved == r.fields - r.unresolved
  {
    UninspectedIsAsked(e, queue, discovered);
    hide Collect, AskedUninspected, Uninspected, Sum, WithPolicy, UnlockableCounts;
  }

  /** The known share is the whole number of per cent resolved: all of them exactly when something was discovered and
      nothing is unresolved, and none when nothing is resolved. */
  lemma KnownPercentExactly(r: Readiness)
    requires 0 <= r.resolved && 0 <= r.unresolved && r.resolved + r.unresolved == r.fields
    ensures r.fields > 0 ==>
              KnownPercent(r) * r.fields <= 100 * r.resolved < (KnownPercent(r) + 1) * r.fields
    ensures KnownPercent(r) == 100 <==> r.fields > 0 && r.unresolved == 0
    ensures r.resolved == 0 ==> KnownPercent(r) == 0
  {
    if r.fields > 0 {
      var share := r.resolved as real / r.fields as real * 100.0;
      ShareScaled(r.resolved, r.fields, share);
      Bounded(share.Floor, r.fields, 100 * r.resolved, share);
      ShareIsWhole(r.resolved, r.fields, share.Floor);
    }
  }

  function Times(x: real, y: real): real {
    x * y
  }

  lemma ShareScaled(s: int, f: int, share: real)
    requires f > 0 && share == s as real / f as real * 100.0
    ensures Times(share, f as real) == (100 * s) as real
  {
    var q := s as real / f as real;
    assert q * f as real == s as real;
    assert share * f as real == (q * f as real) * 100.0;
  }

  lemma Bounded(p: int, f: int, h: int, share: real)
    requires f > 0 && p as real <= share < p as real + 1.0 && Times(share, f as real) == h as real
    ensures p * f <= h < (p + 1) * f
  {
    hide Times;
    Stretched(p as real, share, f as real);
    Stretched(share, (p + 1) as real, f as real);
    var m := ProductAsReal(p, f);
    var n := ProductAsReal(p + 1, f);
    assert m as real <= h as real < n as real;
  }

  lemma ProductAsReal(p: int, f: int) returns (m: int)
    ensures m == p * f && m as real == Times(p as real, f as real)
  {
    m := p * f;
  }

  lemma Stretched(x: real, y: real, g: real)
    requires g > 0.0
    ensures (x < y ==> Times(x, g) < Times(y, g)) && (x == y ==> Times(x, g) == Times(y, g))
  {
    PositiveProduct(y - x, g);
    assert (y - x) * g == y * g - x * g;
  }

  lemma ShareIsWhole(s: int, f: int, p: int)
    requires 0 <= s <= f && 0 < f && p * f <= 100 * s < (p + 1) * f
    ensures (p == 100 <==> s == f) && (s == 0 ==> p == 0)
  {
    Ordered(p, 100, f);
    Ordered(100, p, f);
    Ordered(p, 0, f);
    Ordered(0, p, f);
  }

  lemma Ordered(a: int, b: int, f: int)
    requires f > 0
    ensures a > b ==> a * f >= b * f + f
  {
    if a > b {
      var more := a - b - 1;
      assert a * f == more * f + b * f + f;
    }
  }
}
