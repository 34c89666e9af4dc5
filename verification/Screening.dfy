/** The eligibility gate: geography, remote work, career track and seniority. */
module Screening {
  import opened Model
  import opened Text
  import opened Collections
  import opened Phrases

  /** The curated lists the gate reads. */
  datatype Lexicon = Lexicon(
    countries: map<string, string>, nonRemote: seq<string>, managementPhrases: seq<string>,
    managementWords: set<string>, stretchWords: set<string>, distinctiveWords: set<string>, platformNouns: set<string>)

  /** Phrases are kept in normal form. */
  ghost predicate NormalLexicon(l: Lexicon) {
    && (forall n :: n in l.countries ==> IsPhrase(n))
    && (forall k :: 0 <= k < |l.nonRemote| ==> IsPhrase(l.nonRemote[k]))
    && (forall k :: 0 <= k < |l.managementPhrases| ==> IsPhrase(l.managementPhrases[k]))
  }

  datatype Profile = Profile(
    allowedCountries: seq<string>, remoteOnly: bool, roles: seq<string>, allowManagement: bool, rejectStretch: bool)

  datatype Posting = Posting(
    title: string, location: string, description: string, remoteClaimed: bool, countryCodes: seq<string>)

  datatype Reason =
    | OutsideAllowedCountries | IneligibleRemote | ManagementExcluded | RoleMismatch | SeniorityOutside
    | LocationUnknown

  datatype Verdict = Eligible | Rejected(reason: Reason)

  // ----- geography

  datatype Geography = Allowed | Outside | Unknown

  function Code(raw: string): string {
    ToUpper(TrimSpace(raw))
  }

  /** The two-letter codes a feed states. */
  function ExplicitCodes(codes: seq<string>): set<string> {
    set c | c in codes && ByteLength(Code(c)) == 2 :: Code(c)
  }

  /** The two-letter codes of the countries a location names as whole phrases. */
  function NamedCodes(location: string, l: Lexicon): set<string> {
    set n | n in l.countries && ByteLength(Code(l.countries[n])) == 2
            && Contains(Padded(NormalizePhrase(location)), Padded(n)) :: Code(l.countries[n])
  }

  /** Explicit codes win outright; otherwise the free-text location is read. */
  function CountryCodes(location: string, explicit: seq<string>, l: Lexicon): set<string> {
    if ExplicitCodes(explicit) != {} then ExplicitCodes(explicit) else NamedCodes(location, l)
  }

  function Permitted(allowed: seq<string>): set<string> {
    set c | c in allowed && Code(c) != "" :: Code(c)
  }

  function GeographyEligible(location: string, explicit: seq<string>, allowed: seq<string>, l: Lexicon): Geography {
    var permitted, codes := Permitted(allowed), CountryCodes(location, explicit, l);
    if permitted == {} then Allowed
    else if codes == {} then Unknown
    else if codes * permitted != {} then Allowed
    else Outside
  }

  function LocationAllowed(location: string, explicit: seq<string>, allowed: seq<string>, l: Lexicon): bool {
    var permitted, codes := Permitted(allowed), CountryCodes(location, explicit, l);
    allowed == [] || permitted == {} || codes == {} || codes * permitted != {}
  }

  /** The codes found so far, in whatever order. */
  ghost function Elements(found: seq<string>): set<string> {
    set c | c in found
  }

  /** Adds a code unless it is malformed or already there. */
  method AddCode(found: seq<string>, raw: string) returns (r: seq<string>)
    requires Distinct(found)
    ensures Elements(r) == Elements(found) + (if ByteLength(Code(raw)) == 2 then {Code(raw)} else {})
    ensures Distinct(r)
  {
    r := found;
    var code := Code(raw);
    if ByteLength(code) == 2 && code !in found {
      r := found + [code];
    }
  }

  method StatedCodes(explicit: seq<string>) returns (found: seq<string>)
    ensures Elements(found) == ExplicitCodes(explicit) && Distinct(found)
  {
    hide Code, ByteLength;
    found := [];
    for i := 0 to |explicit|
      invariant Elements(found) == ExplicitCodes(explicit[..i]) && Distinct(found)
    {
      assert explicit[..i + 1] == explicit[..i] + [explicit[i]];
      found := AddCode(found, explicit[i]);
    }
    assert explicit[..|explicit|] == explicit;
  }

  /** Reads the location against the table, whatever order the table is visited in. */
  method LocatedCodes(location: string, l: Lexicon) returns (found: seq<string>)
    ensures Elements(found) == NamedCodes(location, l) && Distinct(found)
  {
    NothingVisited(location, l);
    hide Code, ByteLength, NormalizePhrase, Contains, Padded, NamedCodes, Elements, VisitedCodes, Distinct;
    found := [];
    var text := Padded(NormalizePhrase(location));
    var rest := l.countries;
    while rest != map[]
      invariant forall n :: n in rest ==> n in l.countries && rest[n] == l.countries[n]
      invariant Elements(found) == VisitedCodes(location, l, rest) && Distinct(found)
      decreases rest.Keys
    {
      var n :| n in rest;
      VisitOne(location, l, rest, n);
      if Contains(text, Padded(n)) {
        found := AddCode(found, rest[n]);
      }
      rest := rest - {n};
    }
    AllVisited(location, l);
  }

  /** The codes of the table's entries visited so far. */
  function VisitedCodes(location: string, l: Lexicon, rest: map<string, string>): set<string> {
    NamedCodes(location, l.(countries := l.countries - rest.Keys))
  }

  lemma NothingVisited(location: string, l: Lexicon)
    ensures VisitedCodes(location, l, l.countries) == {} == Elements([]) && Distinct<string>([])
  {
    assert l.countries - l.countries.Keys == map[];
  }

  lemma AllVisited(location: string, l: Lexicon)
    ensures VisitedCodes(location, l, map[]) == NamedCodes(location, l)
  {
    var none: map<string, string> := map[];
    assert none.Keys == {} && l.countries - none.Keys == l.countries;
  }

  /** A feed states the code. */
  predicate IsStated(explicit: seq<string>, code: string) {
    ByteLength(code) == 2 && exists c :: c in explicit && Code(c) == code
  }

  /** A feed states some two-letter code. */
  ghost predicate States(explicit: seq<string>) {
    exists c :: c in explicit && ByteLength(Code(c)) == 2
  }

  /** The location names a country with the code. */
  predicate IsNamed(location: string, l: Lexicon, code: string) {
    ByteLength(code) == 2
    && exists n :: n in l.countries && Code(l.countries[n]) == code
                   && Contains(Padded(NormalizePhrase(location)), Padded(n))
  }

  lemma StatedOrNamed(location: string, explicit: seq<string>, l: Lexicon)
    ensures States(explicit) ==>
              forall code :: code in CountryCodes(location, explicit, l) <==> IsStated(explicit, code)
    ensures !States(explicit) ==>
              forall code :: code in CountryCodes(location, explicit, l) <==> IsNamed(location, l, code)
  {
    hide Code, ByteLength, Contains, Padded, NormalizePhrase;
    if c :| c in explicit && ByteLength(Code(c)) == 2 {
      assert Code(c) in ExplicitCodes(explicit);
    } else {
      assert ExplicitCodes(explicit) == {};
    }
  }

  /** The country evidence for a posting, each code once: what the feed states if it states any, otherwise what the
      location names. */
  method CountryCodesFor(location: string, explicit: seq<string>, l: Lexicon) returns (found: seq<string>)
    ensures Elements(found) == CountryCodes(location, explicit, l) && Distinct(found)
    ensures States(explicit) ==> forall code :: code in found <==> IsStated(explicit, code)
    ensures !States(explicit) ==> forall code :: code in found <==> IsNamed(location, l, code)
  {
    StatedOrNamed(location, explicit, l);
    hide ExplicitCodes, NamedCodes, CountryCodes, States, IsStated, IsNamed;
    found := ReadCodes(location, explicit, l);
    assert forall code :: code in found <==> code in Elements(found);
  }

  method ReadCodes(location: string, explicit: seq<string>, l: Lexicon) returns (found: seq<string>)
    ensures Elements(found) == CountryCodes(location, explicit, l) && Distinct(found)
  {
    hide ExplicitCodes, NamedCodes;
    found := StatedCodes(explicit);
    ghost var codes := Elements(found);
    assert codes == ExplicitCodes(explicit);
    if |found| > 0 {
      assert found[0] in codes;
    } else {
      assert codes == {};
      found := LocatedCodes(location, l);
    }
  }

  lemma VisitOne(location: string, l: Lexicon, rest: map<string, string>, n: string)
    requires n in rest && forall n :: n in rest ==> n in l.countries && rest[n] == l.countries[n]
    ensures var named := Contains(Padded(NormalizePhrase(location)), Padded(n)) && ByteLength(Code(rest[n])) == 2;
            VisitedCodes(location, l, rest - {n}) ==
            VisitedCodes(location, l, rest) + (if named then {Code(rest[n])} else {})
  {
    hide Code, ByteLength, NormalizePhrase, Contains;
  }

  /** The discovery gate admits exactly the postings the stricter gate does not place outside the allowlist. */
  lemma DiscoveryAdmitsAllButOutside(location: string, explicit: seq<string>, allowed: seq<string>, l: Lexicon)
    ensures LocationAllowed(location, explicit, allowed, l) <==>
            GeographyEligible(location, explicit, allowed, l) != Outside
  {
    hide Code, CountryCodes;
  }

  /** A location yields a country only where the country's words stand in it as whole words, in order. */
  lemma CountryIsWholePhrase(location: string, l: Lexicon, code: string)
    requires NormalLexicon(l)
    ensures code in NamedCodes(location, l) <==>
            exists n :: n in l.countries && Code(l.countries[n]) == code && ByteLength(code) == 2
                        && Sublist(Words(n), Words(Spaced(ToLower(location))))
  {
    hide Code, ByteLength, NormalizePhrase, Words, Sublist, Padded, Contains, IsPhrase;
    forall n | n in l.countries
      ensures Contains(Padded(NormalizePhrase(location)), Padded(n)) <==>
              Sublist(Words(n), Words(Spaced(ToLower(location))))
    {
      PhraseInText(location, n);
    }
  }

  /** What counts as evidence: if the feed states any two-letter code, exactly those it states; otherwise exactly the
      codes of the countries whose words stand in the location as whole words. */
  lemma CodesFoundExactly(location: string, explicit: seq<string>, l: Lexicon, code: string)
    requires NormalLexicon(l)
    ensures code in CountryCodes(location, explicit, l) <==>
            if States(explicit) then IsStated(explicit, code)
            else exists n :: n in l.countries && Code(l.countries[n]) == code && ByteLength(code) == 2
                             && Sublist(Words(n), Words(Spaced(ToLower(location))))
  {
    StatedOrNamed(location, explicit, l);
    CountryIsWholePhrase(location, l, code);
    hide Code, ByteLength, States, IsStated, Contains, Padded, NormalizePhrase, CountryCodes, Sublist, IsPhrase;
  }

  /** When the feed states a code, no location text changes the verdict. */
  lemma StatedCodesWin(location: string, other: string, explicit: seq<string>, allowed: seq<string>, l: Lexicon)
    requires States(explicit)
    ensures CountryCodes(location, explicit, l) == CountryCodes(other, explicit, l)
    ensures forall code :: code in CountryCodes(location, explicit, l) ==> IsStated(explicit, code)
    ensures GeographyEligible(location, explicit, allowed, l) == GeographyEligible(other, explicit, allowed, l)
    ensures LocationAllowed(location, explicit, allowed, l) == LocationAllowed(other, explicit, allowed, l)
  {
    StatedOrNamed(location, explicit, l);
    StatedOrNamed(other, explicit, l);
    hide States, IsStated, Permitted;
    assert CountryCodes(location, explicit, l) == CountryCodes(other, explicit, l) by { hide CountryCodes; }
    hide CountryCodes;
  }

  /** The allowlist names the code, up to case and surrounding blanks. */
  predicate IsListed(allowed: seq<string>, code: string) {
    code != "" && exists c :: c in allowed && Code(c) == code
  }

  /** The three verdicts on geography: without an allowlist, or with one code found on it, allowed; with codes found but
      none on it, outside; and unknown only when there is an allowlist and nothing was found. */
  lemma GeographyExactly(location: string, explicit: seq<string>, allowed: seq<string>, l: Lexicon)
    ensures var g, codes := GeographyEligible(location, explicit, allowed, l), CountryCodes(location, explicit, l);
            var listing := exists c :: c in allowed && Code(c) != "";
            && (g == Allowed <==> !listing || exists code :: code in codes && IsListed(allowed, code))
            && (g == Unknown <==> listing && codes == {})
            && (g == Outside <==> listing && codes != {} && forall code :: code in codes ==> !IsListed(allowed, code))
  {
    hide Code, CountryCodes;
    var permitted, codes := Permitted(allowed), CountryCodes(location, explicit, l);
    forall code
      ensures code in permitted <==> IsListed(allowed, code)
    {
    }
    if c :| c in allowed && Code(c) != "" {
      assert Code(c) in permitted;
    }
    if code :| code in codes && IsListed(allowed, code) {
      assert code in codes * permitted;
    }
    if codes * permitted != {} {
      var code :| code in codes * permitted;
      assert IsListed(allowed, code);
    }
  }

  // ----- remote work

  predicate Signals(combined: string, phrases: seq<string>) {
    exists k :: 0 <= k < |phrases| && Contains(combined, Padded(TrimSpace(phrases[k])))
  }

  predicate RemoteEligible(claimed: bool, location: string, description: string, l: Lexicon) {
    var combined := Padded(NormalizePhrase(location + " " + description));
    !Signals(combined, l.nonRemote) && (claimed || Contains(combined, " remote "))
  }

  method ScreenRemote(claimed: bool, location: string, description: string, l: Lexicon) returns (ok: bool)
    ensures ok == RemoteEligible(claimed, location, description, l)
  {
    hide NormalizePhrase, TrimSpace, Contains;
    var combined := Padded(NormalizePhrase(location + " " + description));
    for i := 0 to |l.nonRemote|
      invariant forall k :: 0 <= k < i ==> !Contains(combined, Padded(TrimSpace(l.nonRemote[k])))
    {
      if Contains(combined, Padded(TrimSpace(l.nonRemote[i]))) {
        return false;
      }
    }
    ok := claimed || Contains(combined, " remote ");
  }

  // ----- titles

  predicate AnyWord(words: seq<string>, table: set<string>) {
    exists k :: 0 <= k < |words| && words[k] in table
  }

  predicate ManagementTrack(title: string, l: Lexicon) {
    var t := NormalizePhrase(title);
    t != ""
    && ((exists k :: 0 <= k < |l.managementPhrases| && Contains(Padded(t), Padded(l.managementPhrases[k])))
        || AnyWord(Words(t), l.managementWords))
  }

  predicate StretchSeniority(title: string, l: Lexicon) {
    AnyWord(Words(NormalizePhrase(title)), l.stretchWords)
  }

  /** "platform" counts on its own only right before an occupation noun. */
  predicate PlatformEligible(words: seq<string>, l: Lexicon) {
    exists k :: 0 <= k < |words| - 1 && words[k] == "platform" && words[k + 1] in l.platformNouns
  }

  predicate RolePhrase(title: string, role: string) {
    var t, r := NormalizePhrase(title), NormalizePhrase(role);
    t != "" && r != "" && (Contains(Padded(t), Padded(r)) || t == r)
  }

  /** A distinctive word of the role that the title has too. */
  predicate SharesWord(title: string, role: string, l: Lexicon) {
    var t, r := Words(NormalizePhrase(title)), Words(NormalizePhrase(role));
    exists k :: 0 <= k < |r| && r[k] in l.distinctiveWords && r[k] in t
        && (r[k] == "platform" ==> PlatformEligible(t, l))
  }

  predicate MatchesByPhrase(title: string, roles: seq<string>) {
    roles == [] || exists k :: 0 <= k < |roles| && RolePhrase(title, roles[k])
  }

  predicate MatchesByWord(title: string, roles: seq<string>, l: Lexicon) {
    exists k :: 0 <= k < |roles| && !RolePhrase(title, roles[k]) && SharesWord(title, roles[k], l)
  }

  method MatchRoles(title: string, roles: seq<string>, l: Lexicon) returns (phraseMatch: bool, wordMatch: bool)
    ensures phraseMatch == MatchesByPhrase(title, roles) && wordMatch == MatchesByWord(title, roles, l)
  {
    hide NormalizePhrase, Contains, PlatformEligible;
    if |roles| == 0 {
      return true, false;
    }
    phraseMatch, wordMatch := false, false;
    var t := NormalizePhrase(title);
    if t == "" {
      WordlessShares(title, roles, l);
      return;
    }
    var words := Words(t);
    var platform := PlatformEligible(words, l);
    for i := 0 to |roles|
      invariant phraseMatch <==> exists k :: 0 <= k < i && RolePhrase(title, roles[k])
      invariant wordMatch <==> exists k :: 0 <= k < i && !RolePhrase(title, roles[k]) && SharesWord(title, roles[k], l)
    {
      hide Words;
      var r := NormalizePhrase(roles[i]);
      if r == "" {
        WordlessRole(title, roles[i], l);
        continue;
      }
      if Contains(Padded(t), Padded(r)) || t == r {
        phraseMatch := true;
        continue;
      }
      var shared := SharedWord(words, Words(r), platform, l);
      if shared {
        wordMatch := true;
      }
    }
  }

  method SharedWord(title: seq<string>, role: seq<string>, platform: bool, l: Lexicon) returns (shared: bool)
    ensures shared <==>
            exists k :: 0 <= k < |role| && role[k] in l.distinctiveWords && role[k] in title
                && (role[k] == "platform" ==> platform)
  {
    shared := false;
    for k := 0 to |role|
      invariant shared <==>
                exists j :: 0 <= j < k && role[j] in l.distinctiveWords && role[j] in title
                    && (role[j] == "platform" ==> platform)
    {
      if role[k] !in l.distinctiveWords || role[k] !in title {
        continue;
      }
      if role[k] == "platform" && !platform {
        continue;
      }
      shared := true;
    }
  }

  lemma WordlessRole(title: string, role: string, l: Lexicon)
    requires NormalizePhrase(role) == ""
    ensures !RolePhrase(title, role) && !SharesWord(title, role, l)
  {
    hide NormalizePhrase;
    assert Words("") == [];
  }

  lemma WordlessShares(title: string, roles: seq<string>, l: Lexicon)
    requires NormalizePhrase(title) == ""
    ensures forall k :: 0 <= k < |roles| ==> !RolePhrase(title, roles[k]) && !SharesWord(title, roles[k], l)
  {
    hide NormalizePhrase;
    assert Words("") == [];
  }

  datatype Fit = Primary | Adjacent | Stretch | Unfit(reason: Reason)

  function ClassifyTitle(title: string, roles: seq<string>, allowManagement: bool, allowStretch: bool,
                         l: Lexicon): Fit {
    if ManagementTrack(title, l) && !allowManagement then Unfit(ManagementExcluded)
    else if !MatchesByPhrase(title, roles) && !MatchesByWord(title, roles, l) then Unfit(RoleMismatch)
    else if StretchSeniority(title, l) then if allowStretch then Stretch else Unfit(SeniorityOutside)
    else if MatchesByPhrase(title, roles) then Primary
    else Adjacent
  }

  function ScreenJob(job: Posting, profile: Option<Profile>, l: Lexicon): Verdict {
    if profile.None? then Eligible
    else
      var p := profile.value;
      var geography := GeographyEligible(job.location, job.countryCodes, p.allowedCountries, l);
      var fit := ClassifyTitle(job.title, p.roles, p.allowManagement, !p.rejectStretch, l);
      if geography == Outside then Rejected(OutsideAllowedCountries)
      else if p.remoteOnly && !RemoteEligible(job.remoteClaimed, job.location, job.description, l)
      then Rejected(IneligibleRemote)
      else if fit.Unfit? then Rejected(fit.reason)
      else if geography == Unknown then Rejected(LocationUnknown)
      else Eligible
  }

  // ----- laws

  /** A management title is one with a management word, or with a management phrase standing in it word for word. */
  lemma ManagementIsWholeWords(title: string, l: Lexicon)
    requires NormalLexicon(l)
    ensures ManagementTrack(title, l) <==>
            || AnyWord(Words(Spaced(ToLower(title))), l.managementWords)
            || exists k :: 0 <= k < |l.managementPhrases|
                           && Sublist(Words(l.managementPhrases[k]), Words(Spaced(ToLower(title))))
  {
    hide IsPhrase, Sublist, Padded, Contains;
    var words := Words(Spaced(ToLower(title)));
    NormalizedIsPhrase(title);
    forall k | 0 <= k < |l.managementPhrases|
      ensures Contains(Padded(NormalizePhrase(title)), Padded(l.managementPhrases[k])) <==>
              Sublist(Words(l.managementPhrases[k]), words)
    {
      PhraseInText(title, l.managementPhrases[k]);
    }
    if NormalizePhrase(title) == "" {
      assert words == [];
      forall k | 0 <= k < |l.managementPhrases|
        ensures !Sublist(Words(l.managementPhrases[k]), words)
      {
        NothingInNothing(l.managementPhrases[k]);
      }
    }
  }

  lemma NothingInNothing(phrase: string)
    requires IsPhrase(phrase)
    ensures !Sublist(Words(phrase), [])
  {
    assert Words(phrase) != [];
  }

  /** A posting passes as remote exactly when no disqualifying phrase stands in its texts word for word and remote work
      is either claimed or mentioned: the word itself counts, whatever stands around it. */
  lemma RemoteIsWholeWords(claimed: bool, location: string, description: string, l: Lexicon)
    requires NormalLexicon(l)
    ensures var words := Words(Spaced(ToLower(location + " " + description)));
            RemoteEligible(claimed, location, description, l) <==>
            && (forall k :: 0 <= k < |l.nonRemote| ==> !Sublist(Words(l.nonRemote[k]), words))
            && (claimed || "remote" in words)
  {
    hide IsPhrase, Sublist, Padded, Contains, NormalizePhrase, TrimSpace;
    var text := location + " " + description;
    var words := Words(Spaced(ToLower(text)));
    forall k | 0 <= k < |l.nonRemote|
      ensures Contains(Padded(NormalizePhrase(text)), Padded(TrimSpace(l.nonRemote[k]))) <==>
              Sublist(Words(l.nonRemote[k]), words)
    {
      PhraseIsTrimmed(l.nonRemote[k]);
      PhraseInText(text, l.nonRemote[k]);
    }
    RemoteIsPhrase();
    PhraseInText(text, "remote");
    OneWordSublist("remote", words);
  }

  /** The bare word in the description makes a posting remote that never claimed to be. */
  lemma MentionIsEnough(l: Lexicon)
    requires NormalLexicon(l) && "remote" !in l.nonRemote
    ensures RemoteEligible(false, "", "remote", l)
  {
    MentionedWords();
    hide RemoteEligible, Words, Spaced, ToLower;
    RemoteIsWholeWords(false, "", "remote", l);
    forall k | 0 <= k < |l.nonRemote|
      ensures !Sublist(Words(l.nonRemote[k]), ["remote"])
    {
      OnlyPhraseOfWord(l.nonRemote[k], "remote");
    }
  }

  lemma MentionedWords()
    ensures Words(Spaced(ToLower("" + " " + "remote"))) == ["remote"]
  {
    assert Spaced(ToLower("" + " " + "remote")) == " remote";
    assert " remote"[1..] == "remote";
    WordsOfWord("remote");
  }

  lemma OnlyPhraseOfWord(p: string, w: string)
    requires IsPhrase(p)
    ensures Sublist(Words(p), [w]) ==> p == w
  {
    WordsAreWords(p);
    JoinShape(Words(p));
    if k: nat :| SublistAt(Words(p), [w], k) {
      assert |Words(p)| == 1 && Words(p) == [w];
    }
  }

  lemma PhraseIsTrimmed(p: string)
    requires IsPhrase(p)
    ensures TrimSpace(p) == p
  {
    WordsAreWords(p);
    JoinShape(Words(p));
    TrimSpaceTrims(p);
  }

  lemma RemoteIsPhrase()
    ensures IsPhrase("remote") && Words("remote") == ["remote"] && Padded("remote") == " remote "
  {
    WordsOfWord("remote");
  }

  lemma OneWordSublist(w: string, words: seq<string>)
    ensures Sublist([w], words) <==> w in words
  {
    if w in words {
      var k :| 0 <= k < |words| && words[k] == w;
      assert SublistAt([w], words, k);
    }
    if Sublist([w], words) {
      var k: nat :| SublistAt([w], words, k);
      assert words[k..k + 1][0] == words[k];
    }
  }

  /** A role phrase matches exactly when its words stand in the title's; the comparison for equality adds nothing. */
  lemma RolePhraseIsSublist(title: string, role: string)
    ensures RolePhrase(title, role) <==>
            Words(Spaced(ToLower(role))) != [] && Sublist(Words(Spaced(ToLower(role))), Words(Spaced(ToLower(title))))
  {
    hide Sublist, Contains, Padded, IsPhrase;
    var t, r := Words(Spaced(ToLower(title))), Words(Spaced(ToLower(role)));
    NormalizedIsPhrase(title);
    NormalizedIsPhrase(role);
    WordsAreWords(Spaced(ToLower(title)));
    WordsAreWords(Spaced(ToLower(role)));
    JoinShape(r);
    JoinShape(t);
    if r != [] {
      PaddedSearchIsWordMatch(t, r);
      SublistShape(r, t);
    }
  }

  lemma SublistShape(r: seq<string>, t: seq<string>)
    requires r != []
    ensures t == [] ==> !Sublist(r, t)
    ensures r == t ==> Sublist(r, t)
  {
    if r == t {
      assert SublistAt(r, t, 0);
    }
  }

  /** The gate accepts exactly when every one of its conditions holds on its own; none makes up for another. */
  lemma ScreenExactly(job: Posting, p: Profile, l: Lexicon)
    ensures ScreenJob(job, None, l) == Eligible
    ensures ScreenJob(job, Some(p), l) == Eligible <==>
            && GeographyEligible(job.location, job.countryCodes, p.allowedCountries, l) == Allowed
            && (p.remoteOnly ==> RemoteEligible(job.remoteClaimed, job.location, job.description, l))
            && (ManagementTrack(job.title, l) ==> p.allowManagement)
            && (MatchesByPhrase(job.title, p.roles) || MatchesByWord(job.title, p.roles, l))
            && (StretchSeniority(job.title, l) ==> !p.rejectStretch)
  {
    hide GeographyEligible, RemoteEligible, ManagementTrack, MatchesByPhrase, MatchesByWord, StretchSeniority;
  }

  /** Evidence that a posting lies outside the allowlist is final: it is the verdict exactly then, whatever else the
      profile says and the posting claims. */
  lemma OutsideIsFinal(job: Posting, p: Profile, l: Lexicon)
    ensures ScreenJob(job, Some(p), l) == Rejected(OutsideAllowedCountries) <==>
            GeographyEligible(job.location, job.countryCodes, p.allowedCountries, l) == Outside
  {
    hide GeographyEligible, RemoteEligible, ManagementTrack, MatchesByPhrase, MatchesByWord, StretchSeniority;
  }

  /** A posting is held for its location only when nothing else stands against it: exactly when its country cannot be
      told and it would be accepted with no allowlist at all. */
  lemma HeldOnlyForLocation(job: Posting, p: Profile, l: Lexicon)
    ensures ScreenJob(job, Some(p), l) == Rejected(LocationUnknown) <==>
            && GeographyEligible(job.location, job.countryCodes, p.allowedCountries, l) == Unknown
            && ScreenJob(job, Some(p.(allowedCountries := [])), l) == Eligible
  {
    assert Permitted([]) == {};
    assert GeographyEligible(job.location, job.countryCodes, [], l) == Allowed;
    hide GeographyEligible, RemoteEligible, ManagementTrack, MatchesByPhrase, MatchesByWord, StretchSeniority;
  }

  /** When the feed states a code, a posting's location text matters to the whole gate only through remote work. */
  lemma StatedCodesDecide(job: Posting, other: string, p: Profile, l: Lexicon)
    requires States(job.countryCodes)
    requires p.remoteOnly ==> RemoteEligible(job.remoteClaimed, job.location, job.description, l)
                              == RemoteEligible(job.remoteClaimed, other, job.description, l)
    ensures ScreenJob(job.(location := other), Some(p), l) == ScreenJob(job, Some(p), l)
  {
    StatedCodesWin(job.location, other, job.countryCodes, p.allowedCountries, l);
    hide GeographyEligible, RemoteEligible, ClassifyTitle, States;
  }

  /** Which reason a rejection gives: the first that applies, in the order country, remote work, management, role,
      seniority, unknown location. */
  lemma ReasonIsFirst(job: Posting, p: Profile, l: Lexicon)
    ensures var v := ScreenJob(job, Some(p), l);
            var located := GeographyEligible(job.location, job.countryCodes, p.allowedCountries, l) != Outside;
            var remote := p.remoteOnly ==> RemoteEligible(job.remoteClaimed, job.location, job.description, l);
            var contributor := ManagementTrack(job.title, l) ==> p.allowManagement;
            var role := MatchesByPhrase(job.title, p.roles) || MatchesByWord(job.title, p.roles, l);
            && (v == Rejected(IneligibleRemote) <==> located && !remote)
            && (v == Rejected(ManagementExcluded) <==> located && remote && !contributor)
            && (v == Rejected(RoleMismatch) <==> located && remote && contributor && !role)
            && (v == Rejected(SeniorityOutside) <==>
                  located && remote && contributor && role && StretchSeniority(job.title, l) && p.rejectStretch)
  {
    hide GeographyEligible, RemoteEligible, ManagementTrack, MatchesByPhrase, MatchesByWord, StretchSeniority;
  }

  /** How well a title fits: a stretch whenever a stretch word stands in it, otherwise primary by phrase and adjacent by
      word. */
  lemma TitleFits(title: string, roles: seq<string>, allowManagement: bool, allowStretch: bool, l: Lexicon)
    ensures var fit := ClassifyTitle(title, roles, allowManagement, allowStretch, l);
            var contributor := ManagementTrack(title, l) ==> allowManagement;
            && (fit == Primary <==> contributor && !StretchSeniority(title, l) && MatchesByPhrase(title, roles))
            && (fit == Adjacent <==> contributor && !StretchSeniority(title, l) && !MatchesByPhrase(title, roles)
                                     && MatchesByWord(title, roles, l))
            && (fit == Stretch <==> contributor && StretchSeniority(title, l) && allowStretch
                                    && (MatchesByPhrase(title, roles) || MatchesByWord(title, roles, l)))
  {
    hide ManagementTrack, MatchesByPhrase, MatchesByWord, StretchSeniority;
  }

  /** A stretch title is one with a stretch word among its words. */
  lemma StretchIsWholeWord(title: string, l: Lexicon)
    ensures StretchSeniority(title, l) <==> exists w :: w in Words(Spaced(ToLower(title))) && w in l.stretchWords
  {
    NormalizedIsPhrase(title);
    hide Words, Spaced, ToLower, IsPhrase, NormalizePhrase;
  }

  /** A title matches a role by word exactly when the role's words do not stand in it together, but some distinctive
      word is common to both -- and if only "platform" is, when an occupation follows it. */
  lemma WordMatchExactly(title: string, role: string, l: Lexicon)
    ensures var t, r := Words(Spaced(ToLower(title))), Words(Spaced(ToLower(role)));
            MatchesByWord(title, [role], l) <==>
            && (r == [] || !Sublist(r, t))
            && exists w :: w in r && w in t && w in l.distinctiveWords
                           && (w == "platform" ==>
                                 exists k :: 0 <= k < |t| - 1 && t[k] == "platform" && t[k + 1] in l.platformNouns)
  {
    NormalizedIsPhrase(title);
    NormalizedIsPhrase(role);
    RolePhraseIsSublist(title, role);
    hide Words, Spaced, ToLower, IsPhrase, NormalizePhrase, RolePhrase, Sublist;
    OneRole(title, role, l);
  }

  lemma OneRole(title: string, role: string, l: Lexicon)
    ensures MatchesByWord(title, [role], l) <==> !RolePhrase(title, role) && SharesWord(title, role, l)
  {
    hide RolePhrase, SharesWord;
    assert [role][0] == role;
  }

  /** A title matches a list of roles by word when it does one of them. */
  lemma AnyRoleMatches(title: string, roles: seq<string>, l: Lexicon)
    ensures MatchesByWord(title, roles, l) <==> exists r :: r in roles && MatchesByWord(title, [r], l)
    ensures roles != [] ==> (MatchesByPhrase(title, roles) <==> exists r :: r in roles && RolePhrase(title, r))
  {
    forall r
      ensures MatchesByWord(title, [r], l) <==> !RolePhrase(title, r) && SharesWord(title, r, l)
    {
      OneRole(title, r, l);
    }
    hide RolePhrase, SharesWord;
    if k :| 0 <= k < |roles| && !RolePhrase(title, roles[k]) && SharesWord(title, roles[k], l) {
      assert roles[k] in roles;
    }
    if r :| r in roles && MatchesByWord(title, [r], l) {
      var k :| 0 <= k < |roles| && roles[k] == r;
    }
  }

  /** q asks no more than p: its country allowlist is cleared, or extends a non-empty one; its role list likewise; and
      each switch is at least as permissive. */
  ghost predicate Looser(p: Profile, q: Profile) {
    && (Permitted(q.allowedCountries) == {}
        || (Permitted(p.allowedCountries) != {} && Permitted(p.allowedCountries) <= Permitted(q.allowedCountries)))
    && (q.roles == [] || (p.roles != [] && forall r :: r in p.roles ==> r in q.roles))
    && (p.allowManagement ==> q.allowManagement)
    && (q.rejectStretch ==> p.rejectStretch)
    && (q.remoteOnly ==> p.remoteOnly)
  }

  lemma RolesGrow(title: string, few: seq<string>, many: seq<string>, l: Lexicon)
    requires few != [] && forall r :: r in few ==> r in many
    requires MatchesByPhrase(title, few) || MatchesByWord(title, few, l)
    ensures MatchesByPhrase(title, many) || MatchesByWord(title, many, l)
  {
    hide RolePhrase, SharesWord;
    var k :| 0 <= k < |few| && (RolePhrase(title, few[k]) || SharesWord(title, few[k], l));
    assert few[k] in many;
  }

  /** Loosening the profile never rejects an accepted job. */
  lemma LooseningKeepsAccepted(job: Posting, p: Profile, q: Profile, l: Lexicon)
    requires Looser(p, q) && ScreenJob(job, Some(p), l) == Eligible
    ensures ScreenJob(job, Some(q), l) == Eligible
  {
    hide RemoteEligible, ManagementTrack, MatchesByPhrase, MatchesByWord, StretchSeniority, CountryCodes, ScreenJob;
    ScreenExactly(job, p, l);
    ScreenExactly(job, q, l);
    if q.roles != [] {
      RolesGrow(job.title, p.roles, q.roles, l);
    } else {
      EmptyRolesMatch(job.title, l);
    }
  }

  lemma EmptyRolesMatch(title: string, l: Lexicon)
    ensures MatchesByPhrase(title, [])
  {
  }

  /** Extending an empty allowlist is no loosening: the first country ever allowed turns away every posting that
      names none. */
  lemma FirstCountryIsStricter(job: Posting, p: Profile, allowed: seq<string>, l: Lexicon)
    requires Permitted(p.allowedCountries) == {} && Permitted(allowed) != {}
    requires ScreenJob(job, Some(p), l) == Eligible
    ensures ScreenJob(job, Some(p.(allowedCountries := allowed)), l) == Eligible <==>
            CountryCodes(job.location, job.countryCodes, l) * Permitted(allowed) != {}
    ensures CountryCodes(job.location, job.countryCodes, l) == {} ==>
              ScreenJob(job, Some(p.(allowedCountries := allowed)), l) == Rejected(LocationUnknown)
  {
    hide RemoteEligible, ManagementTrack, MatchesByPhrase, MatchesByWord, StretchSeniority, CountryCodes, Permitted;
  }

  // ----- such a posting

  /** The program's own title lists. */
  ghost predicate ShippedTitles(l: Lexicon) {
    && l.managementWords == {"director", "vp", "chief", "manager"}
    && l.managementPhrases == ["vice president", "head of"]
    && l.stretchWords == {"principal", "staff"}
  }

  lemma EngineerWords()
    ensures Words(Spaced(ToLower("Engineer"))) == ["engineer"]
  {
    assert Spaced(ToLower("Engineer")) == "engineer";
    WordsOfWord("engineer");
  }

  lemma NamelessPlace(l: Lexicon)
    requires NormalLexicon(l)
    ensures CountryCodes("", [], l) == {}
  {
    assert Words(Spaced(ToLower(""))) == [];
    hide Code, ByteLength, NamedCodes, IsPhrase, Sublist, Words, Spaced, ToLower;
    forall n | n in l.countries
      ensures !Sublist(Words(n), [])
    {
      NothingInNothing(n);
    }
    forall code
      ensures code !in NamedCodes("", l)
    {
      CountryIsWholePhrase("", l, code);
    }
  }

  lemma EngineerIsNoTitleWord(l: Lexicon)
    requires ShippedTitles(l)
    ensures !AnyWord(["engineer"], l.managementWords) && !AnyWord(["engineer"], l.stretchWords)
  {
    assert |"engineer"| == 8 && "engineer"[0] == 'e' && "director"[0] == 'd';
  }

  lemma EngineerIsNoTitlePhrase(l: Lexicon)
    requires NormalLexicon(l) && ShippedTitles(l)
    ensures forall k :: 0 <= k < |l.managementPhrases| ==> !Sublist(Words(l.managementPhrases[k]), ["engineer"])
  {
    hide Words, Sublist, IsPhrase;
    assert |"vice president"| == 14 && |"head of"| == 7 && |"engineer"| == 8;
    forall k | 0 <= k < |l.managementPhrases|
      ensures !Sublist(Words(l.managementPhrases[k]), ["engineer"])
    {
      OnlyPhraseOfWord(l.managementPhrases[k], "engineer");
    }
  }

  lemma EngineerIsPlain(l: Lexicon)
    requires NormalLexicon(l) && ShippedTitles(l)
    ensures !ManagementTrack("Engineer", l) && !StretchSeniority("Engineer", l)
  {
    EngineerIsNoTitlePhrase(l);
    EngineerIsNoTitleWord(l);
    EngineerWords();
    hide ManagementTrack, Words, Spaced, ToLower, Sublist, IsPhrase, AnyWord, NormalizePhrase, ShippedTitles,
      NormalLexicon;
    NormalizedIsPhrase("Engineer");
    ManagementIsWholeWords("Engineer", l);
  }

  lemma EngineerMatches()
    ensures MatchesByPhrase("Engineer", ["Engineer"])
  {
    EngineerWords();
    RolePhraseIsSublist("Engineer", "Engineer");
    SublistShape(["engineer"], ["engineer"]);
    hide RolePhrase;
    assert RolePhrase("Engineer", ["Engineer"][0]);
  }

  /** A posting for exactly the role asked for, accepted while no country is required, and turned away by the first
      country ever allowed. */
  lemma FirstCountryTurnsAway(l: Lexicon)
    requires NormalLexicon(l) && ShippedTitles(l)
    ensures var p, job := Profile([], false, ["Engineer"], false, true), Posting("Engineer", "", "", false, []);
            && ScreenJob(job, Some(p), l) == Eligible
            && ScreenJob(job, Some(p.(allowedCountries := ["US"])), l) == Rejected(LocationUnknown)
  {
    var p, job := Profile([], false, ["Engineer"], false, true), Posting("Engineer", "", "", false, []);
    EngineerIsPlain(l);
    EngineerMatches();
    NamelessPlace(l);
    SomeCountry();
    assert GeographyEligible("", [], [], l) == Allowed;
    hide ManagementTrack, StretchSeniority, MatchesByPhrase, MatchesByWord, CountryCodes, Permitted, GeographyEligible,
      ScreenJob, RemoteEligible;
    ScreenExactly(job, p, l);
    FirstCountryIsStricter(job, p, ["US"], l);
  }

  lemma SomeCountry()
    ensures Permitted([]) == {} && Permitted(["US"]) != {}
  {
    TrimSpaceTrims("US");
    assert Code("US") != "" && "US" in ["US"];
    assert Code("US") in Permitted(["US"]);
  }
}
