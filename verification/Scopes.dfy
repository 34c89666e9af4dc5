/** Which scopes an approval can apply in: those some form's chain contains; and the dashboard's way of asking. */
module Scopes {
  import opened Model
  import opened Text
  import opened Normalizer
  import opened Vault
  import opened Resolver
  import KnowledgeApproval

  const COMPANY := "company:"
  const ATS := "ats:"

  /** The scope names the resolver can produce: each normalized part is its own normal form. */
  predicate Canonical(scope: string, t: Tables) {
    || scope == GLOBAL
    || (COMPANY <= scope && scope != COMPANY && NormalizeCompany(scope[|COMPANY|..], t) == scope[|COMPANY|..])
    || (ATS <= scope && scope != ATS && ToLower(TrimSpace(scope[|ATS|..])) == scope[|ATS|..])
  }

  /** The scope a request from the dashboard is stored under: only what the page can offer, in normal form. */
  function RequestedScope(scope: string, t: Tables): string {
    var trimmed := TrimSpace(scope);
    if trimmed == "" || trimmed == GLOBAL then GLOBAL
    else if ATS <= trimmed then AtsScope(trimmed[|ATS|..])
    else if COMPANY <= trimmed then CompanyScope(trimmed[|COMPANY|..], t)
    else GLOBAL
  }

  // ----- the normalizers of the parts

  lemma {:induction false} CompanyWordsSelect(ws: seq<string>, t: Tables)
    requires AllWords(ws)
    ensures AllWords(CompanyWords(ws, t))
    ensures forall k :: 0 <= k < |CompanyWords(ws, t)| ==> CompanyWords(ws, t)[k] !in t.companySuffixes
  {
    if ws != [] {
      CompanyWordsSelect(ws[1..], t);
    }
  }

  lemma {:induction false} CompanyWordsKeep(ws: seq<string>, t: Tables)
    requires forall k :: 0 <= k < |ws| ==> ws[k] !in t.companySuffixes
    ensures CompanyWords(ws, t) == ws
  {
    if ws != [] {
      CompanyWordsKeep(ws[1..], t);
    }
  }

  /** A normalized company name is its own normal form, and made of word characters and single blanks. */
  lemma NormalizeCompanyIdempotent(company: string, t: Tables)
    ensures var n := NormalizeCompany(company, t);
            && NormalizeCompany(n, t) == n && Trimmed(n)
            && forall i :: 0 <= i < |n| ==> IsAlnum(n[i]) || n[i] == ' '
  {
    var all := Words(ToLower(TrimSpace(company)));
    var ws := CompanyWords(all, t);
    WordsAreWords(ToLower(TrimSpace(company)));
    CompanyWordsSelect(all, t);
    JoinShape(ws);
    TrimSpaceTrims(Join(ws));
    assert ToLower(Join(ws)) == Join(ws);
    WordsOfJoin(ws);
    CompanyWordsKeep(ws, t);
  }

  lemma LowerSpaces(c: char)
    ensures IsSpace(LowerChar(c)) <==> IsSpace(c)
    ensures LowerChar(LowerChar(c)) == LowerChar(c)
  {
  }

  /** A lower-cased trimmed name is its own normal form. */
  lemma LowerTrimIdempotent(provider: string)
    ensures var p := ToLower(TrimSpace(provider)); ToLower(TrimSpace(p)) == p && Trimmed(p)
  {
    var trimmed := TrimSpace(provider);
    var p := ToLower(trimmed);
    TrimSpaceTrims(provider);
    forall i | 0 <= i < |p|
      ensures (IsSpace(p[i]) <==> IsSpace(trimmed[i])) && LowerChar(p[i]) == p[i]
    {
      LowerSpaces(trimmed[i]);
    }
    assert Trimmed(p);
    TrimSpaceTrims(p);
    assert ToLower(p) == p;
  }

  lemma CompanyScopeIsCanonical(company: string, t: Tables)
    ensures Canonical(CompanyScope(company, t), t)
  {
    NormalizeCompanyIdempotent(company, t);
    hide NormalizeCompany, ToLower, TrimSpace;
    var n := NormalizeCompany(company, t);
    assert (COMPANY + n)[|COMPANY|..] == n;
  }

  lemma AtsScopeIsCanonical(provider: string, t: Tables)
    ensures Canonical(AtsScope(provider), t)
  {
    LowerTrimIdempotent(provider);
    hide NormalizeCompany, ToLower, TrimSpace;
    var p := ToLower(TrimSpace(provider));
    assert (ATS + p)[|ATS|..] == p;
  }

  // ----- what chains contain

  /** A canonical scope is the one its own parts lead to. */
  lemma CanonicalIsReached(scope: string, t: Tables) returns (ctx: Context)
    requires Canonical(scope, t)
    ensures scope in ScopeChain(ctx, t)
  {
    hide NormalizeCompany, ToLower, TrimSpace;
    if scope == GLOBAL {
      ctx := Context("", "");
    } else if COMPANY <= scope && scope != COMPANY && NormalizeCompany(scope[|COMPANY|..], t) == scope[|COMPANY|..] {
      ctx := Context("", scope[|COMPANY|..]);
      assert scope == COMPANY + scope[|COMPANY|..] && scope[0] == 'c' && GLOBAL[0] == 'g';
      assert CompanyScope(ctx.company, t) == scope;
    } else {
      ctx := Context(scope[|ATS|..], "");
      assert scope == ATS + scope[|ATS|..] && scope[0] == 'a' && GLOBAL[0] == 'g';
      assert AtsScope(ctx.ats) == scope;
    }
  }

  lemma ChainIsCanonical(ctx: Context, scope: string, t: Tables)
    requires scope in ScopeChain(ctx, t)
    ensures Canonical(scope, t)
  {
    CompanyScopeIsCanonical(ctx.company, t);
    AtsScopeIsCanonical(ctx.ats, t);
    hide CompanyScope, AtsScope;
    assert scope == CompanyScope(ctx.company, t) || scope == AtsScope(ctx.ats) || scope == GLOBAL;
  }

  /** The scopes of all forms: a scope lies in some form's chain exactly when it is global, or a company or application
      system name in normal form behind its prefix. */
  lemma ScopesOfForms(scope: string, t: Tables)
    ensures (exists ctx: Context :: scope in ScopeChain(ctx, t)) <==> Canonical(scope, t)
  {
    hide ScopeChain, Canonical;
    if ctx: Context :| scope in ScopeChain(ctx, t) {
      ChainIsCanonical(ctx, scope, t);
    }
    if Canonical(scope, t) {
      var ctx := CanonicalIsReached(scope, t);
    }
  }

  // ----- what the dashboard asks for

  /** Whatever scope a request names, what it is stored under lies in some form's chain. */
  lemma RequestedScopeApplies(scope: string, t: Tables)
    ensures Canonical(RequestedScope(scope, t), t)
    ensures exists ctx: Context :: RequestedScope(scope, t) in ScopeChain(ctx, t)
  {
    hide ScopeChain, CompanyScope, AtsScope, TrimSpace;
    var trimmed := TrimSpace(scope);
    if ATS <= trimmed {
      AtsScopeIsCanonical(trimmed[|ATS|..], t);
    } else if COMPANY <= trimmed {
      CompanyScopeIsCanonical(trimmed[|COMPANY|..], t);
    }
    hide RequestedScope;
    ScopesOfForms(RequestedScope(scope, t), t);
  }

  /** A request that names a company is stored under the scope forms of that company try first, and one that names an
      application system under a scope its forms try; a name without words, or any other request, means everywhere. */
  lemma RequestNamesItsForms(scope: string, name: string, other: string, t: Tables)
    ensures TrimSpace(scope) == COMPANY + name ==>
              var chain := ScopeChain(Context(other, name), t);
              RequestedScope(scope, t) == if NormalizeCompany(name, t) != "" then chain[0] else GLOBAL
    ensures TrimSpace(scope) == ATS + name ==>
              && RequestedScope(scope, t) in ScopeChain(Context(name, other), t)
              && (RequestedScope(scope, t) == GLOBAL <==> ToLower(TrimSpace(name)) == "")
    ensures !(COMPANY <= TrimSpace(scope)) && !(ATS <= TrimSpace(scope)) ==> RequestedScope(scope, t) == GLOBAL
  {
    hide NormalizeCompany, ToLower, TrimSpace;
    ScopeChainShape(Context(other, name), t);
    assert (COMPANY + name)[|COMPANY|..] == name && (ATS + name)[|ATS|..] == name;
    assert (COMPANY + name)[0] == 'c' && (ATS + name)[0] == 'a' && GLOBAL[0] == 'g';
  }

  /** The vault itself only drops the blanks around a scope, and takes an empty one as everywhere. */
  lemma PaddedScopeIsStored(scope: string)
    ensures Trimmed(EffectiveScope(scope)) && EffectiveScope(scope) != ""
    ensures EffectiveScope(scope) == EffectiveScope(TrimSpace(scope))
    ensures TrimSpace(scope) == "" ==> EffectiveScope(scope) == GLOBAL
    ensures Trimmed(scope) && scope != "" ==> EffectiveScope(scope) == scope
  {
    TrimSpaceTrims(scope);
    TrimSpaceIdempotent(scope);
    hide TrimSpace;
  }

  /** A request keeps exactly the scopes that lie in some form's chain, and so the vault stores them as they are. */
  lemma RequestKeepsExactlyFormScopes(scope: string, t: Tables)
    ensures RequestedScope(scope, t) == scope <==> exists ctx: Context :: scope in ScopeChain(ctx, t)
    ensures Canonical(scope, t) ==> EffectiveScope(scope) == scope
  {
    RequestedScopeApplies(scope, t);
    ScopesOfForms(scope, t);
    if Canonical(scope, t) {
      CanonicalIsTrimmed(scope, t);
      CanonicalIsKept(scope, t);
    }
  }

  lemma CanonicalIsTrimmed(scope: string, t: Tables)
    requires Canonical(scope, t)
    ensures TrimSpace(scope) == scope != ""
  {
    if COMPANY <= scope && scope != COMPANY && NormalizeCompany(scope[|COMPANY|..], t) == scope[|COMPANY|..] {
      NormalizeCompanyIdempotent(scope[|COMPANY|..], t);
      assert scope[|scope| - 1] == scope[|COMPANY|..][|scope| - |COMPANY| - 1];
    } else if ATS <= scope && scope != ATS && ToLower(TrimSpace(scope[|ATS|..])) == scope[|ATS|..] {
      LowerTrimIdempotent(scope[|ATS|..]);
      assert scope[|scope| - 1] == scope[|ATS|..][|scope| - |ATS| - 1];
    }
    assert Trimmed(scope);
    TrimSpaceTrims(scope);
  }

  lemma CanonicalIsKept(scope: string, t: Tables)
    requires Canonical(scope, t) && TrimSpace(scope) == scope != ""
    ensures RequestedScope(scope, t) == scope && EffectiveScope(scope) == scope
  {
    hide NormalizeCompany, ToLower, TrimSpace;
    assert COMPANY <= scope ==> scope[0] == 'c' && scope == COMPANY + scope[|COMPANY|..];
    assert ATS <= scope ==> scope[0] == 'a' && scope == ATS + scope[|ATS|..];
  }

  // ----- at the package boundary

  /** An approval stored under any other scope applies nowhere: every form resolves every question as before. */
  lemma OtherScopesApplyNowhere(v: State, req: SaveRequest, now: int, q: Question, ctx: Context, facts: Option<Facts>,
                                t: Tables)
    requires Valid(v) && Save(v, req, now, t).Ok? && !Canonical(EffectiveScope(req.scope), t)
    ensures Resolve(Save(v, req, now, t).value.vault, q, ctx, facts, t) == Resolve(v, q, ctx, facts, t)
  {
    ScopesOfForms(EffectiveScope(req.scope), t);
    KnowledgeApproval.ApprovalTouchesOnlyItsScope(v, req, now, q, ctx, facts, t);
  }

  /** A company's name stored as given lies in some form's chain exactly when it is its own normal form; asked for
      through the dashboard it becomes the company's own scope. */
  lemma CompanyNameAsGiven(name: string, t: Tables)
    requires name != "" && Trimmed(COMPANY + name)
    ensures EffectiveScope(COMPANY + name) == COMPANY + name
    ensures (exists ctx: Context :: COMPANY + name in ScopeChain(ctx, t)) <==> NormalizeCompany(name, t) == name
    ensures RequestedScope(COMPANY + name, t) == CompanyScope(name, t)
  {
    var scope := COMPANY + name;
    TrimSpaceTrims(scope);
    assert scope[|COMPANY|..] == name && scope[0] == 'c' && GLOBAL[0] == 'g' && ATS[0] == 'a';
    hide NormalizeCompany, ScopeChain, TrimSpace, ToLower, Trimmed;
    ScopesOfForms(scope, t);
  }

  /** Such a scope that no form is asked in, whatever the tables. */
  lemma UnnormalizedCompanyIsOutside(t: Tables)
    ensures EffectiveScope(COMPANY + "Grafana Labs, Inc.") == COMPANY + "Grafana Labs, Inc."
    ensures forall ctx: Context :: COMPANY + "Grafana Labs, Inc." !in ScopeChain(ctx, t)
  {
    hide NormalizeCompany, ScopeChain, EffectiveScope, RequestedScope;
    var name := "Grafana Labs, Inc.";
    NormalizeCompanyIdempotent(name, t);
    assert name[0] == 'G' && name[|name| - 1] == '.';
    CompanyNameAsGiven(name, t);
  }
}
