/** The client of the ROME occupational directory: the manual mapping from
    a job title to a ROME code, the sorting of returned competences into
    technical and transversal ones, the cached OAuth2 token, and the retry
    loop around each GET. The HTTP calls are replies given as parameters. */
module RomeApi {
  import opened Wrappers
  import opened Text
  import opened Assoc
  import opened JsonValue
  import opened PyOps

  // ------------------------------------------------------ title to ROME code

  /** The manual mapping, in its dict order. */
  const Mapping: seq<(string, string)> := [
    ("data scientist", "M1805"),
    ("data analyst", "M1403"),
    ("architecte données", "M1805"),
    ("architecte de données", "M1805"),
    ("développeur", "M1805"),
    ("ingénieur logiciel", "M1805"),
    ("chef de projet", "M1806"),
    ("consultant", "M1402"),
    ("analyste", "M1403"),
    ("business analyst", "M1403"),
    ("product owner", "M1803"),
    ("scrum master", "M1806"),
    ("devops", "M1810"),
    ("administrateur système", "M1810"),
    ("administrateur réseau", "M1810")]

  /** Every code the mapping can answer. */
  const Codes: set<string> := {"M1805", "M1403", "M1806", "M1402", "M1803", "M1810"}

  /** The words that make a title an IT job by default. */
  const ItKeywords: seq<string> := ["data", "développeur", "ingénieur", "informatique", "it", "tech"]

  lemma MappingShape()
    ensures |Mapping| == 15 && Mapping[0].1 == "M1805"
    ensures forall i :: 0 <= i < |Mapping| ==> Mapping[i].1 in Codes && Mapping[i].0 != []
  {
  }

  /** A mapping key matches a title when either contains the other. */
  predicate KeyMatches(key: string, title: string) {
    Contains(title, key) || Contains(key, title)
  }

  /** The first entry from `i` on whose key matches the title. */
  function FirstKeyMatch(m: seq<(string, string)>, title: string, i: nat): (r: Option<nat>)
    requires i <= |m|
    ensures r.Some? ==> i <= r.value < |m| && KeyMatches(m[r.value].0, title)
    ensures forall j :: i <= j < |m| && (r.None? || j < r.value) ==> !KeyMatches(m[j].0, title)
    decreases |m| - i
  {
    if i == |m| then None
    else if KeyMatches(m[i].0, title) then Some(i)
    else FirstKeyMatch(m, title, i + 1)
  }

  lemma ContainsEmpty(s: string)
    ensures Contains(s, [])
  {
    assert StartsWith(s, []);
  }

  /** The lookup `_map_titre_to_code_rome` makes, over a mapping, a list of
      fallback keywords and the fallback code: an exact match of the title,
      else the first key contained in the title or containing it, else the
      fallback code when a keyword occurs, else nothing. */
  function CodeFor(m: seq<(string, string)>, keywords: seq<string>, fallback: string, t: string): (r: Option<string>)
    ensures HasKey(m, t) ==> r == Lookup(m, t)
    ensures !HasKey(m, t) && FirstKeyMatch(m, t, 0).Some? ==> r == Some(m[FirstKeyMatch(m, t, 0).value].1)
    ensures r.None? <==> !HasKey(m, t) && FirstKeyMatch(m, t, 0).None? && forall k :: k in keywords ==> !Contains(t, k)
    ensures r.Some? ==> r.value == fallback || exists i :: 0 <= i < |m| && r.value == m[i].1
    ensures m != [] && t == [] && !HasKey(m, t) ==> r == Some(m[0].1)
  {
    if HasKey(m, t) then
      LookupMember(m, t);
      Lookup(m, t)
    else
      match FirstKeyMatch(m, t, 0)
      case Some(i) => Some(m[i].1)
      case None =>
        ContainsEmpty(if m != [] then m[0].0 else []);
        if exists k :: k in keywords && Contains(t, k) then Some(fallback) else None
  }

  /** `_map_titre_to_code_rome`: the lookup on the lower-cased, stripped
      title. Its answer is always one of the mapping's codes, and an empty
      title matches the first key. */
  function MapTitreToCodeRome(titre: string): (r: Option<string>)
    ensures r.Some? ==> r.value in Codes
    ensures Strip(LowerStr(titre)) == [] ==> r == Some("M1805")
  {
    var t := Strip(LowerStr(titre));
    MappingShape();
    NoEmptyKey(Mapping);
    Within(Mapping, ItKeywords, "M1805", t, Codes);
    CodeFor(Mapping, ItKeywords, "M1805", t)
  }

  lemma Within(m: seq<(string, string)>, keywords: seq<string>, fallback: string, t: string, codes: set<string>)
    requires fallback in codes && forall i :: 0 <= i < |m| ==> m[i].1 in codes
    ensures CodeFor(m, keywords, fallback, t).Some? ==> CodeFor(m, keywords, fallback, t).value in codes
  {
  }

  lemma {:induction false} NoEmptyKey(m: seq<(string, string)>)
    requires forall i :: 0 <= i < |m| ==> m[i].0 != []
    ensures !HasKey(m, [])
    decreases |m|
  {
    if m != [] {
      NoEmptyKey(m[1..]);
    }
  }

  /** A blank title is mapped to "M1805". */
  lemma BlankTitle(titre: string)
    requires Blank(titre)
    ensures MapTitreToCodeRome(titre) == Some("M1805")
  {
    var low := LowerStr(titre);
    assert Blank(low) by {
      forall i | 0 <= i < |low| ensures IsSpace(low[i]) {
        assert IsSpace(titre[i]);
      }
    }
    StripEmptyIffBlank(low);
  }

  // -------------------------------------------------- competence classification

  datatype Kind = Technique | Transversal

  /** The category a lower-cased type names: technical words are tested
      first, and an unknown type counts as technical. */
  function TypeKind(typeComp: string): (r: Kind)
    ensures Contains(typeComp, "technique") || Contains(typeComp, "metier") || Contains(typeComp, "savoir") ==> r == Technique
    ensures r == Transversal <==>
      !(Contains(typeComp, "technique") || Contains(typeComp, "metier") || Contains(typeComp, "savoir")) &&
      (Contains(typeComp, "transversal") || Contains(typeComp, "general") || Contains(typeComp, "comportemental"))
  {
    if Contains(typeComp, "technique") || Contains(typeComp, "metier") || Contains(typeComp, "savoir") then Technique
    else if Contains(typeComp, "transversal") || Contains(typeComp, "general") || Contains(typeComp, "comportemental") then Transversal
    else Technique
  }

  /** One item of a list answer: a dict gives its `libelle` and the kind of
      its lower-cased `type` (`AttributeError` when the type is not a
      string), a string is a technical competence, anything else is
      skipped. */
  function Item(comp: Json): (r: Result<Option<(Json, Kind)>>)
    ensures r.Err? <==> comp.JObj? && !Get(comp, "type", JStr("")).JStr?
    ensures r == Ok(None) <==> !comp.JObj? && !comp.JStr?
    ensures comp.JStr? ==> r == Ok(Some((comp, Technique)))
  {
    match comp
    case JObj(_) =>
      var typ := Get(comp, "type", JStr(""));
      if typ.JStr? then Ok(Some((Get(comp, "libelle", JStr("")), TypeKind(LowerStr(typ.s))))) else Err("AttributeError")
    case JStr(_) => Ok(Some((comp, TypeKind(""))))
    case _ => Ok(None)
  }

  /** The technical and transversal lists built from a list answer, read
      from its last item back so that the loop's prefix is a call. */
  function ClassifyList(items: seq<Json>): (r: Result<(seq<Json>, seq<Json>)>)
    ensures r.Err? <==> exists i :: 0 <= i < |items| && Item(items[i]).Err?
    decreases |items|
  {
    if items == [] then Ok(([], []))
    else
      var n := |items| - 1;
      match ClassifyList(items[..n])
      case Err(e) => Err(e)
      case Ok(lists) =>
        assert forall i :: 0 <= i < n ==> items[..n][i] == items[i];
        match Item(items[n])
        case Err(e) => Err(e)
        case Ok(None) => Ok(lists)
        case Ok(Some((libelle, kind))) =>
          if kind == Technique then Ok((lists.0 + [libelle], lists.1)) else Ok((lists.0, lists.1 + [libelle]))
  }

  /** The labels of the items a list answer keeps, in order. */
  function Labels(items: seq<Json>): seq<Json>
    decreases |items|
  {
    if items == [] then []
    else
      var n := |items| - 1;
      var item := Item(items[n]);
      Labels(items[..n]) + (if item.Ok? && item.value.Some? then [item.value.value.0] else [])
  }

  /** The number of dict and string items. */
  function Eligible(items: seq<Json>): nat
    decreases |items|
  {
    if items == [] then 0
    else
      var n := |items| - 1;
      Eligible(items[..n]) + (if items[n].JObj? || items[n].JStr? then 1 else 0)
  }

  /** Every kept item goes to exactly one list: together the lists hold
      the kept labels, one per dict or string item. */
  lemma {:induction false} ClassifyListPartition(items: seq<Json>)
    requires ClassifyList(items).Ok?
    ensures var lists := ClassifyList(items).value;
      multiset(lists.0) + multiset(lists.1) == multiset(Labels(items)) &&
      |lists.0| + |lists.1| == Eligible(items)
    decreases |items|
  {
    if items != [] {
      var n := |items| - 1;
      var init := items[..n];
      var prev := ClassifyList(init);
      assert prev.Ok?;
      ClassifyListPartition(init);
      var item := Item(items[n]);
      var lists := ClassifyList(items).value;
      var extra := if item.Ok? && item.value.Some? then [item.value.value.0] else [];
      assert Labels(items) == Labels(init) + extra;
      assert Eligible(items) == Eligible(init) + (if items[n].JObj? || items[n].JStr? then 1 else 0);
      assert item.Ok?;
      if item.value.Some? {
        var (libelle, kind) := item.value.value;
        if kind == Technique {
          assert lists == (prev.value.0 + [libelle], prev.value.1);
        } else {
          assert lists == (prev.value.0, prev.value.1 + [libelle]);
        }
      } else {
        assert lists == prev.value;
      }
    }
  }

  /** `get_competences_by_code_rome`'s loop over a list answer. */
  method ClassifyListLoop(items: seq<Json>) returns (r: Result<(seq<Json>, seq<Json>)>)
    ensures r == ClassifyList(items)
  {
    var techniques: seq<Json> := [];
    var transversales: seq<Json> := [];
    for i := 0 to |items|
      invariant ClassifyList(items[..i]) == Ok((techniques, transversales))
    {
      assert items[..i + 1][..i] == items[..i];
      var item := Item(items[i]);
      if item.Err? {
        ClassifyListErr(items, i + 1);
        return Err(item.error);
      }
      match item.value
      case None =>
      case Some((libelle, kind)) =>
        if kind == Technique {
          techniques := techniques + [libelle];
        } else {
          transversales := transversales + [libelle];
        }
    }
    assert items[..|items|] == items;
    return Ok((techniques, transversales));
  }

  /** An error in a prefix is the error of the whole list. */
  lemma {:induction false} ClassifyListErr(items: seq<Json>, k: nat)
    requires k <= |items| && ClassifyList(items[..k]).Err?
    ensures ClassifyList(items) == ClassifyList(items[..k])
    decreases |items| - k
  {
    if k < |items| {
      assert items[..k + 1][..k] == items[..k];
      ClassifyListErr(items, k + 1);
    } else {
      assert items[..k] == items;
    }
  }

  /** `[s.get("libelle", s) if isinstance(s, dict) else s for s in v]`. */
  function LibelleOf(s: Json): Json {
    if s.JObj? then Get(s, "libelle", s) else s
  }

  function Libelles(v: Json): (r: Result<seq<Json>>)
    ensures r.Ok? <==> Iter(v).Ok?
    ensures r.Ok? ==> |r.value| == |Iter(v).value|
    ensures r.Ok? ==> forall i :: 0 <= i < |r.value| ==> r.value[i] == LibelleOf(Iter(v).value[i])
  {
    match Iter(v)
    case Err(e) => Err(e)
    case Ok(xs) => Ok(seq(|xs|, i requires 0 <= i < |xs| => LibelleOf(xs[i])))
  }

  /** The labels under `key` when the dict has it, else none. */
  function Section(fs: Fields, key: string): (r: Result<seq<Json>>)
    ensures !HasKey(fs, key) ==> r == Ok([])
    ensures HasKey(fs, key) ==> r == Libelles(Lookup(fs, key).value)
  {
    if HasKey(fs, key) then Libelles(Lookup(fs, key).value) else Ok([])
  }

  /** A dict answer: `savoirs` then `savoir_faire` are technical;
      `savoir_etre`, or failing it `competences_transversales`, is
      transversal. */
  function ClassifyDict(fs: Fields): (r: Result<(seq<Json>, seq<Json>)>)
    ensures r.Ok? ==>
      Section(fs, "savoirs").Ok? && Section(fs, "savoir_faire").Ok? &&
      r.value.0 == Section(fs, "savoirs").value + Section(fs, "savoir_faire").value
    ensures r.Ok? && HasKey(fs, "savoir_etre") ==>
      Section(fs, "savoir_etre").Ok? && r.value.1 == Section(fs, "savoir_etre").value
    ensures r.Ok? && !HasKey(fs, "savoir_etre") ==>
      Section(fs, "competences_transversales").Ok? && r.value.1 == Section(fs, "competences_transversales").value
    ensures r.Ok? <==>
      Section(fs, "savoirs").Ok? && Section(fs, "savoir_faire").Ok? &&
      Section(fs, if HasKey(fs, "savoir_etre") then "savoir_etre" else "competences_transversales").Ok?
  {
    var savoirs := Section(fs, "savoirs");
    var faire := Section(fs, "savoir_faire");
    var key := if HasKey(fs, "savoir_etre") then "savoir_etre" else "competences_transversales";
    var trans := Section(fs, key);
    if savoirs.Err? then Err(savoirs.error)
    else if faire.Err? then Err(faire.error)
    else if trans.Err? then Err(trans.error)
    else Ok((savoirs.value + faire.value, trans.value))
  }

  /** `get_competences_by_code_rome` given the competence answer and, used
      only when that answer is falsy, the job sheet answer (`None` is
      `JNull`). A falsy answer, or one neither a list nor a dict, gives
      two empty lists. */
  function GetCompetences(answer: Json, fiche: Json): (r: Result<(seq<Json>, seq<Json>)>)
    ensures Truthy(answer) && answer.JList? ==> r == ClassifyList(answer.items)
    ensures Truthy(answer) && answer.JObj? ==> r == ClassifyDict(answer.fields)
    ensures !Truthy(answer) && !Truthy(fiche) ==> r == Ok(([], []))
    ensures Truthy(answer) && !answer.JList? && !answer.JObj? ==> r == Ok(([], []))
  {
    var result :=
      if Truthy(answer) || !Truthy(fiche) then Ok(answer)
      else match In("competences", fiche)
        case Err(e) => Err(e)
        case Ok(present) => if present then GetItem(fiche, "competences") else Ok(answer);
    match result
    case Err(e) => Err(e)
    case Ok(v) =>
      if !Truthy(v) then Ok(([], []))
      else if v.JList? then ClassifyList(v.items)
      else if v.JObj? then ClassifyDict(v.fields)
      else Ok(([], []))
  }

  // ------------------------------------------------------------- the client

  /** The answer of the token endpoint. */
  datatype TokenReply = TokenReply(status: int, body: Json) | TokenNetworkError

  /** The number a JSON value stands for in arithmetic (`bool` is an
      `int` in Python). */
  function AsNumber(j: Json): Option<real> {
    match j
    case JInt(i) => Some(i as real)
    case JFloat(x) => Some(x)
    case JBool(b) => Some(if b then 1.0 else 0.0)
    case _ => None
  }

  /** The token state after `_get_access_token` and what it returns,
      given the time of the check and the time of the new expiry. */
  datatype TokenState = TokenState(token: Json, expiresAt: real)

  function AccessToken(s: TokenState, now: real, later: real, reply: TokenReply): (r: (Result<Json>, TokenState))
    ensures Truthy(s.token) && now < s.expiresAt ==> r == (Ok(s.token), s)
    ensures !(Truthy(s.token) && now < s.expiresAt) && r.0.Ok? ==>
      reply.TokenReply? && reply.status == 200 && reply.body.JObj? && r.1.token == r.0.value &&
      Lookup(reply.body.fields, "access_token") == Some(r.0.value) &&
      AsNumber(Get(reply.body, "expires_in", JInt(3600))).Some? &&
      r.1.expiresAt == later + AsNumber(Get(reply.body, "expires_in", JInt(3600))).value - 60.0
    ensures r.0.Err? ==> r.1.expiresAt == s.expiresAt
  {
    if Truthy(s.token) && now < s.expiresAt then (Ok(s.token), s)
    else match reply
      case TokenNetworkError => (Err("RequestException"), s)
      case TokenReply(status, body) =>
        if status != 200 then (Err("Exception"), s)
        else match GetItem(body, "access_token")
          case Err(e) => (Err(e), s)
          case Ok(token) =>
            match AsNumber(Get(body, "expires_in", JInt(3600)))
            case None => (Err("TypeError"), s.(token := token))
            case Some(expiresIn) => (Ok(token), TokenState(token, later + (expiresIn - 60.0)))
  }

  /** One GET's answer: a status with its body and the `Retry-After`
      header as `int()` reads it (`None` when absent, `Err` when it does
      not parse), or a network failure. */
  datatype Reply = Reply(status: int, body: Json, retryAfter: Option<Result<int>>) | NetworkError

  function Pow2(n: nat): (r: nat)
    ensures r >= 1
  {
    if n == 0 then 1 else 2 * Pow2(n - 1)
  }

  /** What the retry loop did: its result, the GETs made, the sleeps, and
      whether a 401 cleared the token. */
  datatype Attempts = Attempts(result: Result<Option<Json>>, gets: nat, sleeps: seq<int>, cleared: bool)

  /** The attempts from `attempt` on. At most `max_retries` GETs are made
      in all, and a body is returned only for a GET answered 200. */
  function Retry(reply: nat -> Reply, attempt: nat, maxRetries: int): (r: Attempts)
    ensures r.gets <= (if attempt < maxRetries then maxRetries - attempt else 0)
    ensures r.result.Ok? && r.result.value.Some? ==>
      exists k :: attempt <= k < maxRetries && reply(k).Reply? && reply(k).status == 200
    decreases maxRetries - attempt
  {
    if attempt >= maxRetries then Attempts(Ok(None), 0, [], false)
    else match reply(attempt)
      case Reply(status, body, retryAfter) =>
        if status == 200 then Attempts(Ok(Some(body)), 1, [], false)
        else if status == 401 then
          var rest := Retry(reply, attempt + 1, maxRetries);
          rest.(gets := rest.gets + 1, cleared := true)
        else if status == 429 then
          var wait := if retryAfter.None? then Ok(Pow2(attempt) as int) else retryAfter.value;
          if wait.Err? || wait.value < 0 then Attempts(Err("ValueError"), 1, [], false)
          else
            var rest := Retry(reply, attempt + 1, maxRetries);
            rest.(gets := rest.gets + 1, sleeps := [wait.value] + rest.sleeps)
        else Attempts(Ok(None), 1, [], false)
      case NetworkError =>
        if attempt < maxRetries - 1 then
          var rest := Retry(reply, attempt + 1, maxRetries);
          rest.(gets := rest.gets + 1, sleeps := [Pow2(attempt) as int] + rest.sleeps)
        else Attempts(Ok(None), 1, [], false)
  }

  /** Any status other than 200, 401 and 429 ends the loop with nothing. */
  lemma OtherStatusGivesNone(reply: nat -> Reply, attempt: nat, maxRetries: int)
    requires attempt < maxRetries && reply(attempt).Reply?
    requires reply(attempt).status !in {200, 401, 429}
    ensures Retry(reply, attempt, maxRetries) == Attempts(Ok(None), 1, [], false)
  {
  }

  /** The attempts counted so far put in front of the ones still to come. */
  function Then(gets: nat, sleeps: seq<int>, cleared: bool, rest: Attempts): Attempts {
    rest.(gets := gets + rest.gets, sleeps := sleeps + rest.sleeps, cleared := cleared || rest.cleared)
  }

  /** A 401 counted before the attempts still to come. */
  lemma ThenCleared(gets: nat, sleeps: seq<int>, cleared: bool, rest: Attempts)
    ensures Then(gets, sleeps, cleared, rest.(gets := rest.gets + 1, cleared := true)) == Then(gets + 1, sleeps, true, rest)
  {
  }

  /** A wait counted before the attempts still to come. */
  lemma ThenSlept(gets: nat, sleeps: seq<int>, cleared: bool, w: int, rest: Attempts)
    ensures Then(gets, sleeps, cleared, rest.(gets := rest.gets + 1, sleeps := [w] + rest.sleeps))
         == Then(gets + 1, sleeps + [w], cleared, rest)
  {
    assert sleeps + ([w] + rest.sleeps) == (sleeps + [w]) + rest.sleeps;
  }

  /** The `for attempt in range(max_retries)` loop of `_make_request`. */
  method RetryLoop(reply: nat -> Reply, maxRetries: int) returns (a: Attempts)
    ensures a == Retry(reply, 0, maxRetries)
  {
    var attempt := 0;
    var sleeps: seq<int> := [];
    var cleared := false;
    while attempt < maxRetries
      invariant 0 <= attempt
      invariant Retry(reply, 0, maxRetries) == Then(attempt, sleeps, cleared, Retry(reply, attempt, maxRetries))
      decreases maxRetries - attempt
    {
      var answer := reply(attempt);
      ghost var rest := Retry(reply, attempt + 1, maxRetries);
      match answer {
        case Reply(status, body, retryAfter) =>
          if status == 200 {
            return Then(attempt, sleeps, cleared, Attempts(Ok(Some(body)), 1, [], false));
          } else if status == 401 {
            assert Retry(reply, attempt, maxRetries) == rest.(gets := rest.gets + 1, cleared := true);
            ThenCleared(attempt, sleeps, cleared, rest);
            cleared := true;
          } else if status == 429 {
            var wait := if retryAfter.None? then Ok(Pow2(attempt) as int) else retryAfter.value;
            if wait.Err? || wait.value < 0 {
              return Then(attempt, sleeps, cleared, Attempts(Err("ValueError"), 1, [], false));
            }
            assert Retry(reply, attempt, maxRetries) == rest.(gets := rest.gets + 1, sleeps := [wait.value] + rest.sleeps);
            ThenSlept(attempt, sleeps, cleared, wait.value, rest);
            sleeps := sleeps + [wait.value];
          } else {
            return Then(attempt, sleeps, cleared, Attempts(Ok(None), 1, [], false));
          }
        case NetworkError =>
          if attempt < maxRetries - 1 {
            assert Retry(reply, attempt, maxRetries) == rest.(gets := rest.gets + 1, sleeps := [Pow2(attempt) as int] + rest.sleeps);
            ThenSlept(attempt, sleeps, cleared, Pow2(attempt) as int, rest);
            sleeps := sleeps + [Pow2(attempt) as int];
          } else {
            return Then(attempt, sleeps, cleared, Attempts(Ok(None), 1, [], false));
          }
      }
      attempt := attempt + 1;
    }
    return Then(attempt, sleeps, cleared, Attempts(Ok(None), 0, [], false));
  }

  /** `value or os.getenv(name)`: a missing or empty argument gives way to
      the environment's value, itself possibly missing. */
  function OrEnv(given: Option<string>, env: Option<string>): Option<string> {
    if given.Some? && given.value != "" then given else env
  }

  /** The credential check of `ROMEAPIClient.__init__`: the client id and
      secret, each taken from its argument or else from the environment,
      must both be non-empty, or the constructor raises ValueError. */
  function Credentials(clientId: Option<string>, clientSecret: Option<string>,
                       envId: Option<string>, envSecret: Option<string>): (r: Result<(string, string)>)
    ensures r.Err? ==> r == Err("ValueError")
    ensures r.Ok? <==>
      && OrEnv(clientId, envId) != None && OrEnv(clientId, envId) != Some("")
      && OrEnv(clientSecret, envSecret) != None && OrEnv(clientSecret, envSecret) != Some("")
    ensures r.Ok? ==> r.value.0 != "" && r.value.1 != ""
    ensures r.Ok? && clientId.Some? && clientId.value != "" ==> r.value.0 == clientId.value
    ensures r.Ok? && (clientId.None? || clientId == Some("")) ==> envId == Some(r.value.0)
    ensures r.Ok? && clientSecret.Some? && clientSecret.value != "" ==> r.value.1 == clientSecret.value
    ensures r.Ok? && (clientSecret.None? || clientSecret == Some("")) ==> envSecret == Some(r.value.1)
  {
    var id := OrEnv(clientId, envId);
    var secret := OrEnv(clientSecret, envSecret);
    if id.None? || id.value == "" || secret.None? || secret.value == "" then Err("ValueError")
    else Ok((id.value, secret.value))
  }

  /** `ROMEAPIClient`: its credentials and its token cache. */
  class RomeClient {
    const clientId: string
    const clientSecret: string
    var accessToken: Json
    var tokenExpiresAt: real

    /** The state `__init__` leaves once the credential check passed. */
    constructor(id: string, secret: string)
      ensures clientId == id && clientSecret == secret
      ensures accessToken == JNull && tokenExpiresAt == 0.0
    {
      clientId, clientSecret := id, secret;
      accessToken := JNull;
      tokenExpiresAt := 0.0;
    }

    /** `ROMEAPIClient(client_id, client_secret)` with the environment
        given: ValueError unless both credentials resolve to non-empty
        texts, else a fresh client holding them with an empty cache. */
    static method Connect(clientId: Option<string>, clientSecret: Option<string>,
                          envId: Option<string>, envSecret: Option<string>) returns (r: Result<RomeClient>)
      ensures r.Err? <==> Credentials(clientId, clientSecret, envId, envSecret).Err?
      ensures r.Err? ==> r == Err("ValueError")
      ensures r.Ok? ==>
        && fresh(r.value) && r.value.accessToken == JNull && r.value.tokenExpiresAt == 0.0
        && (r.value.clientId, r.value.clientSecret) == Credentials(clientId, clientSecret, envId, envSecret).value
    {
      var creds := Credentials(clientId, clientSecret, envId, envSecret);
      if creds.Err? {
        return Err(creds.error);
      }
      var c := new RomeClient(creds.value.0, creds.value.1);
      return Ok(c);
    }

    /** `_get_access_token`. */
    method GetAccessToken(now: real, later: real, reply: TokenReply) returns (r: Result<Json>)
      modifies this
      ensures (r, TokenState(accessToken, tokenExpiresAt)) == AccessToken(TokenState(old(accessToken), old(tokenExpiresAt)), now, later, reply)
    {
      var out := AccessToken(TokenState(accessToken, tokenExpiresAt), now, later, reply);
      r := out.0;
      accessToken := out.1.token;
      tokenExpiresAt := out.1.expiresAt;
    }

    /** `_make_request`: the token is fetched once to build the header,
        then the retry loop runs; `sent` lists the token each GET carried,
        always the one fetched first, even after a 401 cleared it. */
    method MakeRequest(reply: nat -> Reply, maxRetries: int, now: real, later: real, tokenReply: TokenReply)
      returns (r: Result<Option<Json>>, sleeps: seq<int>, sent: seq<Json>)
      modifies this
      ensures var (token, state) := AccessToken(TokenState(old(accessToken), old(tokenExpiresAt)), now, later, tokenReply);
        if token.Err? then r == Err(token.error) && sent == [] && accessToken == state.token && tokenExpiresAt == state.expiresAt
        else
          var a := Retry(reply, 0, maxRetries);
          r == a.result && sleeps == a.sleeps && |sent| == a.gets &&
          (forall k :: 0 <= k < |sent| ==> sent[k] == token.value) &&
          (if a.cleared then accessToken == JNull && tokenExpiresAt == 0.0
           else accessToken == state.token && tokenExpiresAt == state.expiresAt)
    {
      var token := GetAccessToken(now, later, tokenReply);
      if token.Err? {
        return Err(token.error), [], [];
      }
      var a := RetryLoop(reply, maxRetries);
      if a.cleared {
        accessToken := JNull;
        tokenExpiresAt := 0.0;
      }
      r, sleeps := a.result, a.sleeps;
      sent := seq(a.gets, _ => token.value);
    }
  }
}
