/** The environment of an engine process: a filter over inherited entries and session grants. */
module EngineEnvironment {
  import opened Text
  import opened Ordering
  import opened Collections
  import opened Payloads

  // ---- Keys ----

  const RUNTIME_KEYS := [
    "PATH", "HOME", "USER", "LOGNAME", "SHELL", "TMPDIR", "TMP", "TEMP",
    "LANG", "LANGUAGE", "TERM", "COLORTERM", "NO_COLOR", "FORCE_COLOR",
    "HTTP_PROXY", "HTTPS_PROXY", "ALL_PROXY", "NO_PROXY",
    "SSL_CERT_FILE", "SSL_CERT_DIR", "NODE_EXTRA_CA_CERTS",
    "SYSTEMROOT", "WINDIR", "COMSPEC", "PATHEXT", "USERPROFILE", "HOMEDRIVE", "HOMEPATH",
    "APPDATA", "LOCALAPPDATA", "PROGRAMDATA", "PROGRAMFILES", "PROGRAMFILES(X86)"]

  const CODEX_KEYS := [
    "CODEX_HOME", "OPENAI_API_KEY", "OPENAI_BASE_URL", "OPENAI_ORGANIZATION", "OPENAI_ORG_ID",
    "OPENAI_PROJECT", "OPENAI_PROJECT_ID", "AZURE_OPENAI_API_KEY", "AZURE_OPENAI_ENDPOINT", "OPENAI_API_VERSION"]

  const CLAUDE_KEYS := [
    "CLAUDE_CONFIG_DIR", "CLAUDE_CODE_OAUTH_TOKEN", "CLAUDE_CODE_USE_BEDROCK", "CLAUDE_CODE_USE_VERTEX",
    "CLAUDE_CODE_USE_FOUNDRY", "ANTHROPIC_API_KEY", "ANTHROPIC_AUTH_TOKEN", "ANTHROPIC_BASE_URL", "ANTHROPIC_MODEL",
    "AWS_ACCESS_KEY_ID", "AWS_SECRET_ACCESS_KEY", "AWS_SESSION_TOKEN",
    "AWS_PROFILE", "AWS_REGION", "AWS_DEFAULT_REGION",
    "AWS_CONFIG_FILE", "AWS_SHARED_CREDENTIALS_FILE", "GOOGLE_APPLICATION_CREDENTIALS", "CLOUD_ML_REGION",
    "ANTHROPIC_VERTEX_PROJECT_ID"]

  const PI_KEYS := [
    "PI_CODING_AGENT_DIR", "PI_CONFIG_DIR", "ANTHROPIC_API_KEY", "ANTHROPIC_AUTH_TOKEN", "ANTHROPIC_OAUTH_TOKEN",
    "ANTHROPIC_BASE_URL", "OPENAI_API_KEY", "OPENAI_BASE_URL", "OPENROUTER_API_KEY", "GOOGLE_API_KEY", "GEMINI_API_KEY",
    "MISTRAL_API_KEY", "GROQ_API_KEY", "CEREBRAS_API_KEY", "XAI_API_KEY", "COHERE_API_KEY", "DEEPSEEK_API_KEY",
    "AI_GATEWAY_API_KEY", "ZAI_API_KEY", "OPENCODE_API_KEY", "HF_TOKEN", "MINIMAX_API_KEY", "MINIMAX_CN_API_KEY",
    "KIMI_API_KEY", "COPILOT_GITHUB_TOKEN", "GOOGLE_CLOUD_PROJECT", "GCLOUD_PROJECT", "GOOGLE_CLOUD_LOCATION",
    "AZURE_OPENAI_API_KEY", "AZURE_OPENAI_ENDPOINT", "AZURE_OPENAI_BASE_URL", "AZURE_OPENAI_RESOURCE_NAME",
    "AZURE_OPENAI_API_VERSION", "AZURE_OPENAI_DEPLOYMENT_NAME_MAP", "OPENAI_API_VERSION",
    "AWS_ACCESS_KEY_ID", "AWS_SECRET_ACCESS_KEY", "AWS_SESSION_TOKEN",
    "AWS_PROFILE", "AWS_REGION", "AWS_DEFAULT_REGION",
    "AWS_BEARER_TOKEN_BEDROCK", "AWS_CONFIG_FILE", "AWS_SHARED_CREDENTIALS_FILE", "AWS_WEB_IDENTITY_TOKEN_FILE",
    "AWS_ROLE_ARN", "AWS_ROLE_SESSION_NAME",
    "AWS_CONTAINER_CREDENTIALS_RELATIVE_URI", "AWS_CONTAINER_CREDENTIALS_FULL_URI",
    "AWS_CONTAINER_AUTHORIZATION_TOKEN", "AWS_CONTAINER_AUTHORIZATION_TOKEN_FILE", "AWS_ENDPOINT_URL_BEDROCK_RUNTIME",
    "AWS_BEDROCK_SKIP_AUTH", "GOOGLE_APPLICATION_CREDENTIALS"]

  const FORBIDDEN_PREFIXES := [
    "MSPACE_RUNTIME_", "MSPACE_WORKER_", "MSPACE_BOOTSTRAP_", "MSPACE_GITHUB_", "POSTGRES_", "PG"]

  const FORBIDDEN_KEYS := [
    "MSPACE_SERVER_URL", "MSPACE_CONTROL_PLANE_URL", "MSPACE_STORE", "MSPACE_SQLITE_PATH",
    "DATABASE_URL", "GH_TOKEN", "GITHUB_TOKEN", "GITHUB_APP_PRIVATE_KEY"]

  function Canonical(key: string): string {
    Upper(TrimSpace(key))
  }

  function AuthKeys(engine: string): seq<string> {
    if engine == CODEX then CODEX_KEYS
    else if engine == CLAUDE_CODE then CLAUDE_KEYS
    else if engine == PI then PI_KEYS
    else if engine == "" then CODEX_KEYS + CLAUDE_KEYS + PI_KEYS
    else []
  }

  predicate IsAuthKey(engine: string, key: string) {
    Canonical(key) in AuthKeys(engine)
  }

  predicate IsInheritedKey(engine: string, key: string) {
    var canonical := Canonical(key);
    || canonical in RUNTIME_KEYS || IsAuthKey(engine, canonical)
    || HasPrefix(canonical, "LC_") || HasPrefix(canonical, "XDG_")
  }

  predicate IsForbiddenKey(engine: string, key: string) {
    var canonical := Canonical(key);
    && canonical != "MSPACE_AGENT_TOKEN" && !IsAuthKey(engine, canonical)
    && (|| (exists i :: 0 <= i < |FORBIDDEN_PREFIXES| && HasPrefix(canonical, FORBIDDEN_PREFIXES[i]))
        || canonical in FORBIDDEN_KEYS
        || Contains(canonical, "PASSWORD") || Contains(canonical, "PRIVATE_KEY") || Contains(canonical, "CLIENT_SECRET")
        || HasSuffix(canonical, "_SECRET") || HasSuffix(canonical, "_TOKEN"))
  }

  // ---- The two filters ----

  type Values = map<string, string>

  predicate HasKey(entry: string) {
    IndexOf(entry, '=') < |entry|
  }

  function KeyOf(entry: string): string {
    entry[..IndexOf(entry, '=')]
  }

  /** The canonical key an entry sets. */
  function OwnKey(entry: string): string {
    Canonical(KeyOf(entry))
  }

  function Entry(key: string, value: string): string {
    key + ['='] + value
  }

  predicate Inherits(engine: string, entry: string) {
    HasKey(entry) && IsInheritedKey(engine, KeyOf(entry)) && !IsForbiddenKey(engine, KeyOf(entry))
  }

  /** Later entries replace earlier ones with the same canonical key. */
  function Inherited(engine: string, parent: seq<string>): Values {
    if parent == [] then map[]
    else
      var before, last := Inherited(engine, parent[..|parent| - 1]), parent[|parent| - 1];
      if Inherits(engine, last) then before[OwnKey(last) := last] else before
  }

  /** The grants of a session, taken in some order of its map. */
  function Granted(engine: string, values: Values, extra: map<string, string>, order: seq<string>): Values
    requires forall i :: 0 <= i < |order| ==> order[i] in extra
  {
    if order == [] then values
    else
      var before, key := Granted(engine, values, extra, order[..|order| - 1]), order[|order| - 1];
      if IsForbiddenKey(engine, key) then before else before[Canonical(key) := Entry(key, extra[key])]
  }

  /** One iteration order of a map. */
  ghost predicate IsOrder(order: seq<string>, keys: set<string>) {
    NoDuplicates(order) && forall key :: key in order <==> key in keys
  }

  function Itself(s: string): string { s }

  ghost predicate IsSortedKeys(keys: seq<string>, of: set<string>) {
    Ascending(keys, Itself) && forall key :: key in keys <==> key in of
  }

  lemma SortingKeys(order: seq<string>, keys: set<string>)
    requires IsOrder(order, keys)
    ensures IsSortedKeys(SortBy(order, Itself), keys)
  {
    SortByAscends(order, Itself);
    assert forall key :: key in SortBy(order, Itself) <==> key in multiset(order);
  }

  lemma SomeOrder(keys: set<string>) returns (order: seq<string>)
    ensures IsOrder(order, keys)
    decreases |keys|
  {
    if keys == {} {
      order := [];
    } else {
      var key := SomeElement(keys);
      order := SomeOrder(keys - {key});
      order := order + [key];
    }
  }

  lemma SortedKeysAreUnique(a: seq<string>, b: seq<string>, keys: set<string>)
    requires IsSortedKeys(a, keys) && IsSortedKeys(b, keys)
    ensures a == b
  {
    forall i, j | 0 <= i < j < |a| ensures a[i] != a[j] {
      LessIrreflexive(a[i]);
    }
    forall i, j | 0 <= i < j < |b| ensures b[i] != b[j] {
      LessIrreflexive(b[i]);
    }
    SameElementsPermute(a, b);
    AscendingIsUnique(a, b, Itself);
  }

  ghost function SortedKeys(keys: set<string>): (r: seq<string>)
    ensures IsSortedKeys(r, keys)
  {
    assert exists r :: IsSortedKeys(r, keys) by {
      var order := SomeOrder(keys);
      SortingKeys(order, keys);
    }
    var r :| IsSortedKeys(r, keys);
    r
  }

  /** The entries in the order of their canonical keys. */
  ghost function Render(values: Values): (r: seq<string>)
    ensures |r| == |SortedKeys(values.Keys)|
    ensures forall i | 0 <= i < |r| ::
              SortedKeys(values.Keys)[i] in values && r[i] == values[SortedKeys(values.Keys)[i]]
  {
    var keys := SortedKeys(values.Keys);
    assert forall i :: 0 <= i < |keys| ==> keys[i] in keys;
    seq(|keys|, i requires 0 <= i < |keys| => values[keys[i]])
  }

  /** All grants, in one order of their map. */
  ghost function GrantedAll(engine: string, values: Values, extra: map<string, string>, order: seq<string>): Values
    requires IsOrder(order, extra.Keys)
  {
    OrderIsFromExtra(extra, order);
    Granted(engine, values, extra, order)
  }

  /** The entry of every canonical key after both filters. */
  ghost function Result(engine: string, parent: seq<string>, extra: map<string, string>, order: seq<string>): Values
    requires IsOrder(order, extra.Keys)
  {
    GrantedAll(engine, Inherited(engine, parent), extra, order)
  }

  ghost function Build(engine: string, parent: seq<string>, extra: map<string, string>, order: seq<string>): seq<string>
    requires IsOrder(order, extra.Keys)
  {
    Render(Result(engine, parent, extra, order))
  }

  lemma OrderIsFromExtra(extra: map<string, string>, order: seq<string>)
    requires IsOrder(order, extra.Keys)
    ensures forall i :: 0 <= i < |order| ==> order[i] in extra
  {
    assert forall i :: 0 <= i < |order| ==> order[i] in order;
  }

  // ---- The loops ----

  method FilterInherited(engine: string, parent: seq<string>) returns (values: Values)
    ensures values == Inherited(engine, parent)
  {
    hide IsInheritedKey, IsForbiddenKey, Canonical;
    values := map[];
    var index := 0;
    while index < |parent|
      invariant 0 <= index <= |parent| && values == Inherited(engine, parent[..index])
    {
      var entry := parent[index];
      assert parent[..index + 1][..index] == parent[..index];
      var cut := IndexOf(entry, '=');
      if cut < |entry| {
        var key, value := entry[..cut], entry[cut + 1..];
        if IsInheritedKey(engine, key) && !IsForbiddenKey(engine, key) {
          assert key + ['='] + value == entry;
          values := values[Canonical(key) := key + ['='] + value];
        }
      }
      index := index + 1;
    }
    assert parent[..index] == parent;
  }

  method AddGrants(engine: string, inherited: Values, extra: map<string, string>) returns (values: Values)
    ensures exists order :: IsOrder(order, extra.Keys) && values == GrantedAll(engine, inherited, extra, order)
  {
    hide IsForbiddenKey, Canonical;
    values := inherited;
    ghost var order: seq<string> := [];
    var rest := extra.Keys;
    while rest != {}
      invariant rest <= extra.Keys && IsOrder(order, extra.Keys - rest)
      invariant forall i :: 0 <= i < |order| ==> order[i] in extra
      invariant values == Granted(engine, inherited, extra, order)
      decreases |rest|
    {
      ghost var some := SomeElement(rest);
      var key :| key in rest;
      rest := rest - {key};
      assert (order + [key])[..|order|] == order;
      order := order + [key];
      if !IsForbiddenKey(engine, key) {
        values := values[Canonical(key) := Entry(key, extra[key])];
      }
    }
    assert extra.Keys - rest == extra.Keys;
    assert values == GrantedAll(engine, inherited, extra, order);
  }

  method RenderValues(values: Values) returns (result: seq<string>)
    ensures result == Render(values)
  {
    var keys: seq<string> := [];
    var rest := values.Keys;
    while rest != {}
      invariant rest <= values.Keys && IsOrder(keys, values.Keys - rest)
      decreases |rest|
    {
      ghost var some := SomeElement(rest);
      var key :| key in rest;
      rest := rest - {key};
      keys := keys + [key];
    }
    SortingKeys(keys, values.Keys);
    keys := SortBy(keys, Itself);
    SortedKeysAreUnique(keys, SortedKeys(values.Keys), values.Keys);
    result := [];
    for index := 0 to |keys|
      invariant |result| == index && forall i :: 0 <= i < index ==> keys[i] in values && result[i] == values[keys[i]]
    {
      assert keys[index] in keys;
      result := result + [values[keys[index]]];
    }
  }

  /** The map of grants is walked in some order. */
  method BuildAgentEngineEnvForEngine(engine: string, parent: seq<string>, extra: map<string, string>)
    returns (result: seq<string>)
    ensures exists order :: IsOrder(order, extra.Keys) && result == Build(engine, parent, extra, order)
  {
    hide Inherited, Granted, Render;
    var inherited := FilterInherited(engine, parent);
    var values := AddGrants(engine, inherited, extra);
    result := RenderValues(values);
    ghost var order :| IsOrder(order, extra.Keys) && values == GrantedAll(engine, inherited, extra, order);
    assert result == Build(engine, parent, extra, order);
  }

  // ---- Who wins ----

  /** Position of the last grant for a canonical key, or -1. */
  function LastGrant(engine: string, order: seq<string>, canonical: string): int {
    if order == [] then -1
    else if !IsForbiddenKey(engine, order[|order| - 1]) && Canonical(order[|order| - 1]) == canonical then |order| - 1
    else LastGrant(engine, order[..|order| - 1], canonical)
  }

  lemma {:induction false} LastGrantIsLast(engine: string, order: seq<string>, canonical: string)
    ensures var i := LastGrant(engine, order, canonical);
            && -1 <= i < |order|
            && (i >= 0 ==> !IsForbiddenKey(engine, order[i]) && Canonical(order[i]) == canonical)
            && forall j :: i < j < |order| && !IsForbiddenKey(engine, order[j]) ==> Canonical(order[j]) != canonical
  {
    hide IsForbiddenKey, Canonical;
    if order != [] {
      LastGrantIsLast(engine, order[..|order| - 1], canonical);
    }
  }

  /** Position of the last inherited entry for a canonical key, or -1. */
  function LastInherited(engine: string, parent: seq<string>, canonical: string): int {
    if parent == [] then -1
    else if Inherits(engine, parent[|parent| - 1]) && OwnKey(parent[|parent| - 1]) == canonical then |parent| - 1
    else LastInherited(engine, parent[..|parent| - 1], canonical)
  }

  lemma {:induction false} LastInheritedIsLast(engine: string, parent: seq<string>, canonical: string)
    ensures var i := LastInherited(engine, parent, canonical);
            && -1 <= i < |parent|
            && (i >= 0 ==> Inherits(engine, parent[i]) && OwnKey(parent[i]) == canonical)
            && forall j :: i < j < |parent| && Inherits(engine, parent[j]) ==> OwnKey(parent[j]) != canonical
  {
    hide Inherits, OwnKey;
    if parent != [] {
      LastInheritedIsLast(engine, parent[..|parent| - 1], canonical);
    }
  }

  lemma {:induction false} InheritedIsLast(engine: string, parent: seq<string>, c: string)
    ensures var i := LastInherited(engine, parent, c);
            && -1 <= i < |parent| && (c in Inherited(engine, parent) <==> i >= 0)
            && (i >= 0 ==> Inherited(engine, parent)[c] == parent[i])
  {
    hide Inherits, OwnKey;
    if parent != [] {
      InheritedIsLast(engine, parent[..|parent| - 1], c);
    }
  }

  lemma {:induction false} GrantedIsLast(
    engine: string, values: Values, extra: map<string, string>, order: seq<string>, c: string)
    requires forall i :: 0 <= i < |order| ==> order[i] in extra
    ensures var r, i := Granted(engine, values, extra, order), LastGrant(engine, order, c);
            && -1 <= i < |order| && (c in r <==> i >= 0 || c in values)
            && (c in r ==> r[c] == if i >= 0 then Entry(order[i], extra[order[i]]) else values[c])
  {
    hide IsForbiddenKey, Canonical;
    if order != [] {
      GrantedIsLast(engine, values, extra, order[..|order| - 1], c);
    }
  }

  predicate Grants(engine: string, extra: map<string, string>, key: string) {
    key in extra && !IsForbiddenKey(engine, key)
  }

  /** No two allowed keys are spellings of one. */
  ghost predicate NoClash(engine: string, extra: map<string, string>) {
    forall a, b :: Grants(engine, extra, a) && Grants(engine, extra, b) && Canonical(a) == Canonical(b) ==> a == b
  }

  /** With distinct canonical keys, every order of the grants leads to one map. */
  lemma GrantsCommute(engine: string, parent: seq<string>, extra: map<string, string>, a: seq<string>, b: seq<string>)
    requires NoClash(engine, extra) && IsOrder(a, extra.Keys) && IsOrder(b, extra.Keys)
    ensures Result(engine, parent, extra, a) == Result(engine, parent, extra, b)
  {
    hide IsForbiddenKey, Canonical, Inherited, Granted, LastGrant;
    OrderIsFromExtra(extra, a);
    OrderIsFromExtra(extra, b);
    var x, y := Result(engine, parent, extra, a), Result(engine, parent, extra, b);
    forall c ensures c in x <==> c in y {
      SameLast(engine, parent, extra, a, b, c);
    }
    forall c | c in x ensures x[c] == y[c] {
      SameLast(engine, parent, extra, a, b, c);
    }
  }

  lemma SameLast(
    engine: string, parent: seq<string>, extra: map<string, string>, a: seq<string>, b: seq<string>, c: string)
    requires NoClash(engine, extra) && IsOrder(a, extra.Keys) && IsOrder(b, extra.Keys)
    ensures var x, y := Result(engine, parent, extra, a), Result(engine, parent, extra, b);
            (c in x <==> c in y) && (c in x ==> x[c] == y[c])
  {
    hide IsForbiddenKey, Canonical, Inherited, Granted, LastGrant;
    OrderIsFromExtra(extra, a);
    OrderIsFromExtra(extra, b);
    GrantedIsLast(engine, Inherited(engine, parent), extra, a, c);
    GrantedIsLast(engine, Inherited(engine, parent), extra, b, c);
    var i, j := LastGrant(engine, a, c), LastGrant(engine, b, c);
    LastGrantIsLast(engine, a, c);
    LastGrantIsLast(engine, b, c);
    if i >= 0 {
      assert a[i] in a && a[i] in b;
    }
    if j >= 0 {
      assert b[j] in b && b[j] in a;
    }
  }

  // ---- Entries of one canonical key differ ----

  function EqualsSigns(s: string): nat {
    if s == [] then 0 else EqualsSigns(s[1..]) + if s[0] == '=' then 1 else 0
  }

  lemma {:induction false} EqualsSignsConcat(a: string, b: string)
    ensures EqualsSigns(a + b) == EqualsSigns(a) + EqualsSigns(b)
  {
    if a == [] {
      assert a + b == b;
    } else {
      assert (a + b)[1..] == a[1..] + b;
      EqualsSignsConcat(a[1..], b);
    }
  }

  lemma {:induction false} TrimLeftKeepsEqualsSigns(s: string)
    ensures EqualsSigns(TrimLeft(s, IsSpace)) == EqualsSigns(s)
  {
    if s != [] && IsSpace(s[0]) {
      TrimLeftKeepsEqualsSigns(s[1..]);
    }
  }

  lemma {:induction false} TrimRightKeepsEqualsSigns(s: string)
    ensures EqualsSigns(TrimRight(s, IsSpace)) == EqualsSigns(s)
  {
    if s != [] && IsSpace(s[|s| - 1]) {
      TrimRightKeepsEqualsSigns(s[..|s| - 1]);
      assert s == s[..|s| - 1] + [s[|s| - 1]];
      EqualsSignsConcat(s[..|s| - 1], [s[|s| - 1]]);
    }
  }

  lemma {:induction false} UpperKeepsEqualsSigns(s: string)
    ensures EqualsSigns(Upper(s)) == EqualsSigns(s)
  {
    if s != [] {
      assert Upper(s)[1..] == Upper(s[1..]);
      UpperKeepsEqualsSigns(s[1..]);
      assert (UpperChar(s[0]) == '=') <==> (s[0] == '=');
    }
  }

  lemma CanonicalKeepsEqualsSigns(key: string)
    ensures EqualsSigns(Canonical(key)) == EqualsSigns(key)
  {
    hide Text.Upper, Text.TrimLeft, Text.TrimRight;
    UpperKeepsEqualsSigns(TrimSpace(key));
    TrimRightKeepsEqualsSigns(TrimLeft(key, IsSpace));
    TrimLeftKeepsEqualsSigns(key);
  }

  /** Two spellings of one key never give one entry, whatever the values. */
  lemma SpellingsDiffer(a: string, b: string, v: string, w: string)
    requires a != b && Canonical(a) == Canonical(b)
    ensures Entry(a, v) != Entry(b, w)
  {
    hide Canonical, EqualsSigns;
    CanonicalKeepsEqualsSigns(a);
    CanonicalKeepsEqualsSigns(b);
    if Entry(a, v) == Entry(b, w) {
      if |a| < |b| {
        SpellingIsLonger(a, b, v, w);
      } else if |b| < |a| {
        SpellingIsLonger(b, a, w, v);
      } else {
        SpellingIsPrefix(a, b, v, w);
      }
    }
  }

  lemma SpellingIsPrefix(a: string, b: string, v: string, w: string)
    requires |a| == |b| && Entry(a, v) == Entry(b, w)
    ensures a == b
  {
    assert a == Entry(a, v)[..|a|] && b == Entry(b, w)[..|b|];
  }

  lemma SpellingIsLonger(a: string, b: string, v: string, w: string)
    requires |a| < |b| && Entry(a, v) == Entry(b, w)
    ensures EqualsSigns(b) > EqualsSigns(a)
  {
    var rest := b[|a| + 1..];
    assert b == Entry(b, w)[..|b|] == Entry(a, v)[..|b|];
    assert b[|a|] == Entry(a, v)[|a|] == '=';
    assert b[..|a|] == Entry(a, v)[..|a|] == a;
    assert b == a + (['='] + rest);
    EqualsSignsConcat(a, ['='] + rest);
    assert (['='] + rest)[1..] == rest;
  }

  // ---- Order independence, exactly ----

  lemma RenderIsInjective(a: Values, b: Values)
    requires a.Keys == b.Keys && Render(a) == Render(b)
    ensures a == b
  {
    var keys := SortedKeys(a.Keys);
    forall key | key in a ensures a[key] == b[key] {
      assert key in keys;
      var i :| 0 <= i < |keys| && keys[i] == key;
      assert Render(a)[i] == a[key] && Render(b)[i] == b[key];
    }
  }

  lemma GrantedKeys(engine: string, parent: seq<string>, extra: map<string, string>, a: seq<string>, b: seq<string>)
    requires IsOrder(a, extra.Keys) && IsOrder(b, extra.Keys)
    ensures Result(engine, parent, extra, a).Keys == Result(engine, parent, extra, b).Keys
  {
    hide IsForbiddenKey, Canonical, Inherited, Granted, LastGrant;
    OrderIsFromExtra(extra, a);
    OrderIsFromExtra(extra, b);
    forall c ensures c in Result(engine, parent, extra, a) <==> c in Result(engine, parent, extra, b) {
      GrantedIsLast(engine, Inherited(engine, parent), extra, a, c);
      GrantedIsLast(engine, Inherited(engine, parent), extra, b, c);
      var i, j := LastGrant(engine, a, c), LastGrant(engine, b, c);
      LastGrantIsLast(engine, a, c);
      LastGrantIsLast(engine, b, c);
      if i >= 0 {
        assert a[i] in a && a[i] in b;
      }
      if j >= 0 {
        assert b[j] in b && b[j] in a;
      }
    }
  }

  /** An order in which the given keys come last. */
  lemma OrderEndingIn(keys: set<string>, tail: seq<string>) returns (order: seq<string>)
    requires NoDuplicates(tail) && forall i :: 0 <= i < |tail| ==> tail[i] in keys
    ensures IsOrder(order, keys) && |order| >= |tail| && order[|order| - |tail|..] == tail
  {
    var last := set key | key in tail;
    var front := SomeOrder(keys - last);
    order := front + tail;
    forall i, j | 0 <= i < j < |order| ensures order[i] != order[j] {
      if i < |front| <= j {
        assert order[i] in front && order[j] in tail;
      }
    }
  }

  lemma LastKeyWins(engine: string, parent: seq<string>, extra: map<string, string>, order: seq<string>)
    requires IsOrder(order, extra.Keys) && order != [] && !IsForbiddenKey(engine, order[|order| - 1])
    ensures var key := order[|order| - 1];
            key in extra && Canonical(key) in Result(engine, parent, extra, order)
            && Result(engine, parent, extra, order)[Canonical(key)] == Entry(key, extra[key])
  {
    hide IsForbiddenKey, Canonical, Inherited;
    OrderIsFromExtra(extra, order);
  }

  ghost predicate OrderDoesNotMatter(engine: string, parent: seq<string>, extra: map<string, string>) {
    forall a, b :: IsOrder(a, extra.Keys) && IsOrder(b, extra.Keys) ==>
                     Build(engine, parent, extra, a) == Build(engine, parent, extra, b)
  }

  /**
    The environment is the same for every order of the grants exactly when no two allowed keys are spellings of one.
   */
  lemma OrderDoesNotMatterExactly(engine: string, parent: seq<string>, extra: map<string, string>)
    ensures OrderDoesNotMatter(engine, parent, extra) <==> NoClash(engine, extra)
  {
    hide IsForbiddenKey, Canonical, Inherited, Granted, Render, Entry, IsOrder;
    if NoClash(engine, extra) {
      forall a, b | IsOrder(a, extra.Keys) && IsOrder(b, extra.Keys)
        ensures Build(engine, parent, extra, a) == Build(engine, parent, extra, b)
      {
        GrantsCommute(engine, parent, extra, a, b);
      }
    } else {
      var k, l :| Grants(engine, extra, k) && Grants(engine, extra, l) && Canonical(k) == Canonical(l) && k != l;
      var a := OrderEndingIn(extra.Keys, [k]);
      assert a[|a| - 1..][0] == k;
      var b := OrderEndingIn(extra.Keys, [l]);
      assert b[|b| - 1..][0] == l;
      LastKeyWins(engine, parent, extra, a);
      LastKeyWins(engine, parent, extra, b);
      SpellingsDiffer(k, l, extra[k], extra[l]);
      GrantedKeys(engine, parent, extra, a, b);
      if Build(engine, parent, extra, a) == Build(engine, parent, extra, b) {
        RenderIsInjective(Result(engine, parent, extra, a), Result(engine, parent, extra, b));
      }
    }
  }

  // ---- What comes out ----

  lemma EntryKey(key: string, value: string)
    requires '=' !in key
    ensures KeyOf(Entry(key, value)) == key && HasKey(Entry(key, value))
  {
    hide Text.IndexOf;
    IndexOfAt(key, '=', value);
  }

  lemma RenderedEntries(values: Values, e: string)
    ensures e in Render(values) <==> exists c :: c in values && values[c] == e
  {
    var keys, r := SortedKeys(values.Keys), Render(values);
    if c :| c in values && values[c] == e {
      assert c in keys;
      var i :| 0 <= i < |keys| && keys[i] == c;
      assert r[i] == e;
    }
    if e in r {
      var i :| 0 <= i < |r| && r[i] == e;
      assert keys[i] in keys;
    }
  }

  /** A grant that ends up in the environment. */
  ghost predicate IsGrant(engine: string, extra: map<string, string>, e: string) {
    exists key :: Grants(engine, extra, key) && e == Entry(key, extra[key])
  }

  /** The last inherited entry for its key, and no grant replaces it. */
  ghost predicate IsKept(engine: string, parent: seq<string>, extra: map<string, string>, e: string) {
    && (exists i :: 0 <= i < |parent| && parent[i] == e && i == LastInherited(engine, parent, OwnKey(e)))
    && forall key :: Grants(engine, extra, key) ==> Canonical(key) != OwnKey(e)
  }

  /** The environment holds all allowed grants, the last inherited entry of every other key, and nothing else. */
  lemma EnvironmentIsExactly(
    engine: string, parent: seq<string>, extra: map<string, string>, order: seq<string>, e: string)
    requires NoClash(engine, extra) && IsOrder(order, extra.Keys)
    ensures e in Build(engine, parent, extra, order) <==> IsGrant(engine, extra, e) || IsKept(engine, parent, extra, e)
  {
    hide IsForbiddenKey, Canonical, OwnKey, Inherited, Granted, Render, Entry, LastGrant, LastInherited, IsOrder;
    var values := Result(engine, parent, extra, order);
    RenderedEntries(values, e);
    if c :| c in values && values[c] == e {
      WinnerIsExactly(engine, parent, extra, order, c);
    }
    if key :| Grants(engine, extra, key) && e == Entry(key, extra[key]) {
      WinnerIsExactly(engine, parent, extra, order, Canonical(key));
    }
    if IsKept(engine, parent, extra, e) {
      WinnerIsExactly(engine, parent, extra, order, OwnKey(e));
    }
  }

  /** The entry of one canonical key. */
  lemma WinnerIsExactly(engine: string, parent: seq<string>, extra: map<string, string>, order: seq<string>, c: string)
    requires NoClash(engine, extra) && IsOrder(order, extra.Keys)
    ensures var values, i := Result(engine, parent, extra, order), LastInherited(engine, parent, c);
            && (forall key :: Grants(engine, extra, key) && Canonical(key) == c ==>
                  c in values && values[c] == Entry(key, extra[key]))
            && ((forall key :: Grants(engine, extra, key) ==> Canonical(key) != c) ==>
                  && -1 <= i < |parent| && (c in values <==> i >= 0)
                  && (i >= 0 ==> values[c] == parent[i] && OwnKey(parent[i]) == c))
            && (c in values ==> IsGrant(engine, extra, values[c]) || IsKept(engine, parent, extra, values[c]))
  {
    hide IsForbiddenKey, Canonical, OwnKey, Inherits, Inherited, Granted, Entry, LastGrant, LastInherited;
    OrderIsFromExtra(extra, order);
    GrantedIsLast(engine, Inherited(engine, parent), extra, order, c);
    InheritedIsLast(engine, parent, c);
    LastGrantIsLast(engine, order, c);
    LastInheritedIsLast(engine, parent, c);
    var i := LastGrant(engine, order, c);
    forall key | Grants(engine, extra, key) && Canonical(key) == c
      ensures i >= 0 && order[i] == key
    {
      assert key in order;
      var j :| 0 <= j < |order| && order[j] == key;
      assert Grants(engine, extra, order[i]);
    }
    if i >= 0 {
      assert Grants(engine, extra, order[i]);
    }
  }

  // ---- The keys that are set ----

  /** An entry sets the part of its key in front of the first equals sign. */
  lemma EntrySetsKey(key: string, value: string)
    ensures HasKey(Entry(key, value)) && KeyOf(Entry(key, value)) == KeyOf(key)
  {
    hide Text.IndexOf;
    var i := IndexOf(key, '=');
    if i < |key| {
      var rest := key[i + 1..] + ['='] + value;
      IndexOfAt(key[..i], '=', rest);
      assert Entry(key, value) == key[..i] + ['='] + rest;
    } else {
      assert key[..i] == key;
      IndexOfAt(key, '=', value);
    }
  }

  /**
    What can stand in the environment: `c` is the canonical spelling that decides the place, `own` the canonical key
    that is set there. Inherited entries set the key they are filed under; grants need not.
   */
  ghost predicate IsSlot(engine: string, parent: seq<string>, extra: map<string, string>, c: string, own: string) {
    || (exists key :: Grants(engine, extra, key) && Canonical(key) == c && OwnKey(key) == own)
    || (c in Inherited(engine, parent) && own == c && NoGrantFor(engine, extra, c))
  }

  ghost predicate NoGrantFor(engine: string, extra: map<string, string>, c: string) {
    forall key :: Grants(engine, extra, key) ==> Canonical(key) != c
  }

  /** The entry filed under `c` is a granted or an inherited one. */
  lemma ResultIsSlot(engine: string, parent: seq<string>, extra: map<string, string>, order: seq<string>, c: string)
    requires IsOrder(order, extra.Keys) && c in Result(engine, parent, extra, order)
    ensures var e := Result(engine, parent, extra, order)[c];
            && HasKey(e) && IsSlot(engine, parent, extra, c, OwnKey(e))
            && (|| (exists key :: Grants(engine, extra, key) && KeyOf(key) == KeyOf(e))
                || !IsForbiddenKey(engine, KeyOf(e)))
  {
    hide IsForbiddenKey, IsInheritedKey, Canonical, Inherited, Granted, Entry, LastGrant, LastInherited, HasKey, KeyOf;
    OrderIsFromExtra(extra, order);
    GrantedIsLast(engine, Inherited(engine, parent), extra, order, c);
    InheritedIsLast(engine, parent, c);
    LastGrantIsLast(engine, order, c);
    LastInheritedIsLast(engine, parent, c);
    var i := LastGrant(engine, order, c);
    if i >= 0 {
      assert Grants(engine, extra, order[i]);
      EntrySetsKey(order[i], extra[order[i]]);
    } else {
      forall key | Grants(engine, extra, key) ensures Canonical(key) != c {
        assert key in order;
      }
    }
  }

  /** A grant that no later one replaces is there. */
  lemma ShowsGrant(engine: string, parent: seq<string>, extra: map<string, string>, order: seq<string>, n: nat)
    requires IsOrder(order, extra.Keys) && n < |order| && !IsForbiddenKey(engine, order[n])
    requires forall j :: n < j < |order| ==> Canonical(order[j]) != Canonical(order[n])
    ensures var r, c := Result(engine, parent, extra, order), Canonical(order[n]);
            c in r && OwnKey(r[c]) == OwnKey(order[n]) && KeyOf(r[c]) == KeyOf(order[n])
  {
    hide IsForbiddenKey, Canonical, Inherited, Granted, Entry, LastGrant, KeyOf;
    var c := Canonical(order[n]);
    OrderIsFromExtra(extra, order);
    GrantedIsLast(engine, Inherited(engine, parent), extra, order, c);
    LastGrantIsLast(engine, order, c);
    var i := LastGrant(engine, order, c);
    assert i == n;
    EntrySetsKey(order[n], extra[order[n]]);
  }

  lemma ShowsInherited(engine: string, parent: seq<string>, extra: map<string, string>, order: seq<string>, c: string)
    requires IsOrder(order, extra.Keys) && c in Inherited(engine, parent) && NoGrantFor(engine, extra, c)
    ensures var r := Result(engine, parent, extra, order); c in r && OwnKey(r[c]) == c
  {
    hide IsForbiddenKey, Canonical, Inherited, Granted, LastGrant, LastInherited, KeyOf;
    OrderIsFromExtra(extra, order);
    GrantedIsLast(engine, Inherited(engine, parent), extra, order, c);
    LastGrantIsLast(engine, order, c);
    InheritedIsLast(engine, parent, c);
    LastInheritedIsLast(engine, parent, c);
    var i := LastGrant(engine, order, c);
    assert i >= 0 ==> Grants(engine, extra, order[i]);
  }

  /** Two slots with different spellings stand in one environment, for some order of the grants. */
  lemma SlotsStandTogether(
    engine: string, parent: seq<string>, extra: map<string, string>, c: string, own: string, c': string, own': string)
    returns (order: seq<string>)
    requires c != c' && IsSlot(engine, parent, extra, c, own) && IsSlot(engine, parent, extra, c', own')
    ensures IsOrder(order, extra.Keys)
    ensures var r := Result(engine, parent, extra, order);
            c in r && OwnKey(r[c]) == own && c' in r && OwnKey(r[c']) == own'
  {
    hide IsForbiddenKey, Canonical, OwnKey, Inherited, Result, IsOrder;
    if k :| Grants(engine, extra, k) && Canonical(k) == c && OwnKey(k) == own {
      if l :| Grants(engine, extra, l) && Canonical(l) == c' && OwnKey(l) == own' {
        order := OrderEndingIn(extra.Keys, [k, l]);
        var n := |order| - 2;
        assert order[n..][0] == order[n] == k && order[n..][1] == order[n + 1] == l;
        ShowsGrant(engine, parent, extra, order, n);
        ShowsGrant(engine, parent, extra, order, n + 1);
      } else {
        order := OrderEndingIn(extra.Keys, [k]);
        var n := |order| - 1;
        assert order[n..][0] == order[n] == k;
        ShowsGrant(engine, parent, extra, order, n);
        ShowsInherited(engine, parent, extra, order, c');
      }
    } else if l :| Grants(engine, extra, l) && Canonical(l) == c' && OwnKey(l) == own' {
      order := OrderEndingIn(extra.Keys, [l]);
      var n := |order| - 1;
      assert order[n..][0] == order[n] == l;
      ShowsGrant(engine, parent, extra, order, n);
      ShowsInherited(engine, parent, extra, order, c);
    } else {
      order := OrderEndingIn(extra.Keys, []);
      ShowsInherited(engine, parent, extra, order, c);
      ShowsInherited(engine, parent, extra, order, c');
    }
  }

  /** No two spellings set one key. */
  ghost predicate SlotsAreDistinct(engine: string, parent: seq<string>, extra: map<string, string>) {
    forall c, own, c', own' |
      IsSlot(engine, parent, extra, c, own) && IsSlot(engine, parent, extra, c', own') && c != c' :: own != own'
  }

  /** The keys that are set are ordered like the spellings they are filed under. */
  ghost predicate SlotsAscend(engine: string, parent: seq<string>, extra: map<string, string>) {
    forall c, own, c', own' |
      IsSlot(engine, parent, extra, c, own) && IsSlot(engine, parent, extra, c', own') && Less(c, c') :: Less(own, own')
  }

  ghost predicate AlwaysDistinct(engine: string, parent: seq<string>, extra: map<string, string>) {
    forall order | IsOrder(order, extra.Keys) :: DistinctKeys(Build(engine, parent, extra, order), OwnKey)
  }

  ghost predicate AlwaysAscending(engine: string, parent: seq<string>, extra: map<string, string>) {
    forall order | IsOrder(order, extra.Keys) :: Ascending(Build(engine, parent, extra, order), OwnKey)
  }

  lemma RenderedAt(values: Values, c: string) returns (i: nat)
    requires c in values
    ensures i < |Render(values)| && SortedKeys(values.Keys)[i] == c && Render(values)[i] == values[c]
  {
    assert c in SortedKeys(values.Keys);
    i :| 0 <= i < |SortedKeys(values.Keys)| && SortedKeys(values.Keys)[i] == c;
  }

  /** Every key is set once, for every order of the grants, if and only if no two spellings set one key. */
  lemma KeysAreDistinctExactly(engine: string, parent: seq<string>, extra: map<string, string>)
    ensures AlwaysDistinct(engine, parent, extra) <==> SlotsAreDistinct(engine, parent, extra)
  {
    hide IsForbiddenKey, OwnKey, IsSlot, Result, Render, IsOrder, Text.Less;
    if SlotsAreDistinct(engine, parent, extra) {
      forall order | IsOrder(order, extra.Keys) ensures DistinctKeys(Build(engine, parent, extra, order), OwnKey) {
        var values := Result(engine, parent, extra, order);
        var keys := SortedKeys(values.Keys);
        forall i, j | 0 <= i < j < |keys| ensures OwnKey(values[keys[i]]) != OwnKey(values[keys[j]]) {
          LessIrreflexive(keys[i]);
          ResultIsSlot(engine, parent, extra, order, keys[i]);
          ResultIsSlot(engine, parent, extra, order, keys[j]);
        }
      }
    }
    if AlwaysDistinct(engine, parent, extra) {
      forall c, own, c', own' |
        IsSlot(engine, parent, extra, c, own) && IsSlot(engine, parent, extra, c', own') && c != c'
        ensures own != own'
      {
        var order := SlotsStandTogether(engine, parent, extra, c, own, c', own');
        var values := Result(engine, parent, extra, order);
        var i := RenderedAt(values, c);
        var j := RenderedAt(values, c');
      }
    }
  }

  /**
    The keys that are set ascend, for every order of the grants, if and only if they are ordered like their spellings.
   */
  lemma KeysAscendExactly(engine: string, parent: seq<string>, extra: map<string, string>)
    ensures AlwaysAscending(engine, parent, extra) <==> SlotsAscend(engine, parent, extra)
  {
    hide IsForbiddenKey, OwnKey, IsSlot, Result, Render, IsOrder, Text.Less;
    if SlotsAscend(engine, parent, extra) {
      forall order | IsOrder(order, extra.Keys) ensures Ascending(Build(engine, parent, extra, order), OwnKey) {
        var values := Result(engine, parent, extra, order);
        var keys := SortedKeys(values.Keys);
        forall i, j | 0 <= i < j < |keys| ensures Less(OwnKey(values[keys[i]]), OwnKey(values[keys[j]])) {
          ResultIsSlot(engine, parent, extra, order, keys[i]);
          ResultIsSlot(engine, parent, extra, order, keys[j]);
        }
      }
    }
    if AlwaysAscending(engine, parent, extra) {
      forall c, own, c', own' |
        IsSlot(engine, parent, extra, c, own) && IsSlot(engine, parent, extra, c', own') && Less(c, c')
        ensures Less(own, own')
      {
        LessIrreflexive(c);
        var order := SlotsStandTogether(engine, parent, extra, c, own, c', own');
        var values := Result(engine, parent, extra, order);
        var i := RenderedAt(values, c);
        var j := RenderedAt(values, c');
        PlacesAscend(values, i, j);
      }
    }
  }

  lemma PlacesAscend(values: Values, i: nat, j: nat)
    requires i < |SortedKeys(values.Keys)| && j < |SortedKeys(values.Keys)|
    requires Less(SortedKeys(values.Keys)[i], SortedKeys(values.Keys)[j])
    ensures i < j
  {
    var keys := SortedKeys(values.Keys);
    if j < i {
      LessAsymmetric(keys[i], keys[j]);
    } else if i == j {
      LessIrreflexive(keys[i]);
    }
  }

  // ---- The denylist ----

  /** No entry sets a denied key, for any order of the grants. */
  ghost predicate DenylistHolds(engine: string, parent: seq<string>, extra: map<string, string>) {
    forall order, i | IsOrder(order, extra.Keys) && 0 <= i < |Build(engine, parent, extra, order)| ::
      !IsForbiddenKey(engine, KeyOf(Build(engine, parent, extra, order)[i]))
  }

  /**
    The denylist holds for everything the environment sets if and only if the part of each granted key in front of
    its first equals sign is allowed too. The builder looks at the whole key only.
   */
  lemma DenylistHoldsExactly(engine: string, parent: seq<string>, extra: map<string, string>)
    ensures DenylistHolds(engine, parent, extra) <==>
            forall key :: Grants(engine, extra, key) ==> !IsForbiddenKey(engine, KeyOf(key))
  {
    hide IsForbiddenKey, KeyOf, OwnKey, IsSlot, Result, Render, IsOrder, Canonical;
    if forall key :: Grants(engine, extra, key) ==> !IsForbiddenKey(engine, KeyOf(key)) {
      forall order, i | IsOrder(order, extra.Keys) && 0 <= i < |Build(engine, parent, extra, order)|
        ensures !IsForbiddenKey(engine, KeyOf(Build(engine, parent, extra, order)[i]))
      {
        ResultIsSlot(engine, parent, extra, order, SortedKeys(Result(engine, parent, extra, order).Keys)[i]);
      }
    }
    if DenylistHolds(engine, parent, extra) {
      forall key | Grants(engine, extra, key) ensures !IsForbiddenKey(engine, KeyOf(key)) {
        var order := OrderEndingIn(extra.Keys, [key]);
        var n := |order| - 1;
        assert order[n..][0] == order[n] == key;
        ShowsGrant(engine, parent, extra, order, n);
        var i := RenderedAt(Result(engine, parent, extra, order), Canonical(key));
        assert Build(engine, parent, extra, order)[i] == Result(engine, parent, extra, order)[Canonical(key)];
      }
    }
  }

  lemma ContainsFirst(s: string, part: string)
    requires part != "" && part[0] !in s
    ensures !Contains(s, part)
  {
    if s != [] {
      ContainsFirst(s[1..], part);
    }
  }

  const TOKEN_KEY := "GH_TOKEN"
  const DISGUISED_KEY := "GH_TOKEN=x"

  lemma CanonicalIs(key: string, canonical: string)
    requires key != "" && !IsSpace(key[0]) && !IsSpace(key[|key| - 1])
    requires |key| == |canonical| && forall i :: 0 <= i < |key| ==> UpperChar(key[i]) == canonical[i]
    ensures Canonical(key) == canonical
  {
    hide Text.Trim;
    TrimFixed(key, IsSpace);
  }

  lemma DisguisedKeySetsToken()
    ensures KeyOf(DISGUISED_KEY) == TOKEN_KEY
  {
    hide Text.IndexOf;
    assert DISGUISED_KEY == TOKEN_KEY + ['='] + "x";
    IndexOfAt(TOKEN_KEY, '=', "x");
  }

  lemma NoPasswordIn(c: string)
    requires 'P' !in c && 'C' !in c
    ensures !Contains(c, "PASSWORD") && !Contains(c, "PRIVATE_KEY") && !Contains(c, "CLIENT_SECRET")
  {
    hide Text.Contains;
    ContainsFirst(c, "PASSWORD");
    ContainsFirst(c, "PRIVATE_KEY");
    ContainsFirst(c, "CLIENT_SECRET");
  }

  /** The whole key is on none of the lists. */
  lemma DisguisedKeyIsAllowed()
    ensures !IsForbiddenKey(CODEX, DISGUISED_KEY)
  {
    hide Canonical, Text.Contains, IsAuthKey;
    var c := "GH_TOKEN=X";
    CanonicalIs(DISGUISED_KEY, c);
    NoPasswordIn(c);
    forall i | 0 <= i < |FORBIDDEN_PREFIXES| ensures !HasPrefix(c, FORBIDDEN_PREFIXES[i]) {
      assert FORBIDDEN_PREFIXES[i][0] != c[0];
    }
    assert forall i :: 0 <= i < |FORBIDDEN_KEYS| ==> |FORBIDDEN_KEYS[i]| != |c|;
    assert c[|c| - 1] == 'X' && "_SECRET"[6] == 'T' && "_TOKEN"[5] == 'N';
  }

  lemma TokenKeyIsDenied()
    ensures IsForbiddenKey(CODEX, TOKEN_KEY)
  {
    hide Canonical, Text.Contains;
    CanonicalIs(TOKEN_KEY, TOKEN_KEY);
    assert forall i :: 0 <= i < |CODEX_KEYS| ==> |CODEX_KEYS[i]| != |TOKEN_KEY|;
    assert |"MSPACE_AGENT_TOKEN"| != |TOKEN_KEY| && FORBIDDEN_KEYS[5] == TOKEN_KEY;
  }

  /** A grant of this key puts a denied key into every environment of Codex. */
  lemma DenylistIsPassedBy(parent: seq<string>, value: string)
    ensures !DenylistHolds(CODEX, parent, map[DISGUISED_KEY := value])
  {
    hide IsForbiddenKey, KeyOf, DenylistHolds;
    DisguisedKeyIsAllowed();
    DisguisedKeySetsToken();
    TokenKeyIsDenied();
    var extra := map[DISGUISED_KEY := value];
    DenylistHoldsExactly(CODEX, parent, extra);
    assert Grants(CODEX, extra, DISGUISED_KEY);
  }

  // ---- Grants without equals signs ----

  /** No allowed grant has an equals sign in its key. */
  ghost predicate PlainKeys(engine: string, extra: map<string, string>) {
    forall key :: Grants(engine, extra, key) ==> '=' !in key
  }

  lemma PlainKeySetsItself(key: string)
    requires '=' !in key
    ensures KeyOf(key) == key
  {
    IndexOfNone(key, '=');
  }

  /** Then the keys ascend strictly in canonical form and none is on the denylist. */
  lemma OutputIsCanonical(engine: string, parent: seq<string>, extra: map<string, string>)
    requires PlainKeys(engine, extra)
    ensures AlwaysAscending(engine, parent, extra) && AlwaysDistinct(engine, parent, extra)
    ensures DenylistHolds(engine, parent, extra)
    ensures forall order, i | IsOrder(order, extra.Keys) && 0 <= i < |Build(engine, parent, extra, order)| ::
              HasKey(Build(engine, parent, extra, order)[i])
  {
    hide IsForbiddenKey, KeyOf, HasKey, Canonical, Inherited, Result, IsOrder, Text.Less;
    hide AlwaysAscending, AlwaysDistinct, DenylistHolds;
    forall order, i | IsOrder(order, extra.Keys) && 0 <= i < |Build(engine, parent, extra, order)|
      ensures HasKey(Build(engine, parent, extra, order)[i])
    {
      ResultIsSlot(engine, parent, extra, order, SortedKeys(Result(engine, parent, extra, order).Keys)[i]);
    }
    forall key | Grants(engine, extra, key)
      ensures OwnKey(key) == Canonical(key) && !IsForbiddenKey(engine, KeyOf(key))
    {
      PlainKeySetsItself(key);
    }
    KeysAscendExactly(engine, parent, extra);
    KeysAreDistinctExactly(engine, parent, extra);
    DenylistHoldsExactly(engine, parent, extra);
  }

  /**
    Next to the key in front of its equals sign, a granted key sets that key a second time.
   */
  lemma EqualsSignsDuplicate(
    engine: string, parent: seq<string>, p: string, q: string, v: string, w: string, order: seq<string>)
    requires '=' !in p && !IsForbiddenKey(engine, p) && !IsForbiddenKey(engine, p + ['='] + q)
    requires IsOrder(order, {p, p + ['='] + q})
    ensures var extra := map[p := v, p + ['='] + q := w];
            extra.Keys == {p, p + ['='] + q} && !DistinctKeys(Build(engine, parent, extra, order), OwnKey)
  {
    hide IsForbiddenKey, Canonical, KeyOf, Result, Render, IsOrder;
    var k := p + ['='] + q;
    var extra := map[p := v, k := w];
    assert extra.Keys == {p, k};
    SpellingsOfPrefix(p, q);
    SamePrefixSameKey(p, q);
    LoneGrantStands(engine, parent, extra, order, p, k);
    LoneGrantStands(engine, parent, extra, order, k, p);
    var values := Result(engine, parent, extra, order);
    var i := RenderedAt(values, Canonical(p));
    var j := RenderedAt(values, Canonical(k));
  }

  /** Of two grants with different spellings, both stand in the environment. */
  lemma LoneGrantStands(
    engine: string, parent: seq<string>, extra: map<string, string>, order: seq<string>, p: string, k: string)
    requires IsOrder(order, extra.Keys) && extra.Keys == {p, k}
    requires !IsForbiddenKey(engine, p) && Canonical(p) != Canonical(k)
    ensures var r := Result(engine, parent, extra, order); Canonical(p) in r && OwnKey(r[Canonical(p)]) == OwnKey(p)
  {
    hide IsForbiddenKey, Canonical, KeyOf, Result;
    assert p in order;
    var n :| 0 <= n < |order| && order[n] == p;
    forall j | n < j < |order| ensures Canonical(order[j]) != Canonical(order[n]) {
      assert order[j] in order && order[j] != order[n];
    }
    ShowsGrant(engine, parent, extra, order, n);
  }

  lemma SpellingsOfPrefix(p: string, q: string)
    requires '=' !in p
    ensures Canonical(p) != Canonical(p + ['='] + q) && |p + ['='] + q| > |p|
  {
    hide Canonical;
    CanonicalKeepsEqualsSigns(p);
    CanonicalKeepsEqualsSigns(p + ['='] + q);
    assert p + ['='] + q == p + (['='] + q) && (['='] + q)[1..] == q;
    EqualsSignsConcat(p, ['='] + q);
  }

  lemma SamePrefixSameKey(p: string, q: string)
    requires '=' !in p
    ensures KeyOf(p) == KeyOf(p + ['='] + q)
  {
    hide Text.IndexOf;
    IndexOfAt(p, '=', q);
    PlainKeySetsItself(p);
  }

  // ---- Filtering again ----

  const NO_GRANTS: map<string, string> := map[]

  lemma NothingToOrder(engine: string)
    ensures IsOrder([], NO_GRANTS.Keys) && PlainKeys(engine, NO_GRANTS) && NoClash(engine, NO_GRANTS)
  {
    hide IsForbiddenKey, Canonical;
  }

  lemma InheritedEntry(engine: string, parent: seq<string>, c: string)
    requires c in Inherited(engine, parent)
    ensures Inherits(engine, Inherited(engine, parent)[c]) && OwnKey(Inherited(engine, parent)[c]) == c
  {
    hide Inherits, OwnKey, Inherited, LastInherited;
    InheritedIsLast(engine, parent, c);
    LastInheritedIsLast(engine, parent, c);
  }

  /** An inherited map survives being rendered and inherited again. */
  lemma InheritingAgain(engine: string, parent: seq<string>)
    ensures Inherited(engine, Render(Inherited(engine, parent))) == Inherited(engine, parent)
  {
    hide Inherits, OwnKey, Inherited, LastInherited;
    var values := Inherited(engine, parent);
    var r, keys := Render(values), SortedKeys(values.Keys);
    forall i | 0 <= i < |r| ensures Inherits(engine, r[i]) && OwnKey(r[i]) == keys[i] {
      InheritedEntry(engine, parent, keys[i]);
    }
    forall c ensures c in Inherited(engine, r) <==> c in values {
      InheritedIsLast(engine, r, c);
      LastInheritedIsLast(engine, r, c);
      if c in values {
        var i := RenderedAt(values, c);
        assert OwnKey(r[i]) == c;
      }
    }
    forall c | c in values ensures Inherited(engine, r)[c] == values[c] {
      InheritedIsLast(engine, r, c);
      LastInheritedIsLast(engine, r, c);
    }
  }

  /** Without grants, filtering an already filtered environment changes nothing. */
  lemma FilteringIsIdempotent(engine: string, parent: seq<string>)
    ensures IsOrder([], NO_GRANTS.Keys)
    ensures var r := Build(engine, parent, NO_GRANTS, []); Build(engine, r, NO_GRANTS, []) == r
  {
    hide Inherited, Render;
    NothingToOrder(engine);
    InheritingAgain(engine, parent);
  }

  // ---- Probes ----

  const PROBE_KEYS := [
    "APPDATA", "COMSPEC", "HOME", "HOMEDRIVE", "HOMEPATH", "LANG", "LC_ALL", "LOCALAPPDATA", "PATH", "PATHEXT", "SHELL",
    "SYSTEMROOT", "TEMP", "TMP", "TMPDIR", "USERPROFILE", "WINDIR",
    "XDG_CACHE_HOME", "XDG_CONFIG_HOME", "XDG_DATA_HOME"]

  predicate IsProbeKey(key: string) {
    key in PROBE_KEYS
  }

  const PI_OFFLINE := "PI_OFFLINE"
  const PI_SKIP := "PI_SKIP_VERSION_CHECK"

  function ProbeGrants(engine: string, includeAuth: bool): map<string, string> {
    if engine == PI && includeAuth then map[PI_OFFLINE := "1", PI_SKIP := "1"] else NO_GRANTS
  }

  predicate ProbeAllows(engine: string, includeAuth: bool, key: string) {
    || IsProbeKey(key)
    || (engine == PI && includeAuth && (key == PI_OFFLINE || key == PI_SKIP))
    || (includeAuth && IsAuthKey(engine, key))
  }

  function Permitted(engine: string, includeAuth: bool, entries: seq<string>): (r: seq<string>)
    ensures forall e :: e in r <==> e in entries && ProbeAllows(engine, includeAuth, OwnKey(e))
  {
    if entries == [] then []
    else
      var before, last := Permitted(engine, includeAuth, entries[..|entries| - 1]), entries[|entries| - 1];
      if ProbeAllows(engine, includeAuth, OwnKey(last)) then before + [last] else before
  }

  ghost function ProbeEnv(engine: string, parent: seq<string>, includeAuth: bool, order: seq<string>): seq<string>
    requires IsOrder(order, ProbeGrants(engine, includeAuth).Keys)
  {
    Permitted(engine, includeAuth, Build(engine, parent, ProbeGrants(engine, includeAuth), order))
  }

  method BuildAgentEngineProbeEnv(engine: string, parent: seq<string>, includeAuth: bool) returns (result: seq<string>)
    ensures exists order ::
              && IsOrder(order, ProbeGrants(engine, includeAuth).Keys)
              && result == ProbeEnv(engine, parent, includeAuth, order)
  {
    hide Build, ProbeGrants, ProbeAllows, OwnKey, IsOrder;
    var extra := ProbeGrants(engine, includeAuth);
    var filtered := BuildAgentEngineEnvForEngine(engine, parent, extra);
    ghost var order :| IsOrder(order, extra.Keys) && filtered == Build(engine, parent, extra, order);
    result := [];
    var index := 0;
    while index < |filtered|
      invariant 0 <= index <= |filtered| && result == Permitted(engine, includeAuth, filtered[..index])
    {
      assert filtered[..index + 1][..index] == filtered[..index];
      if ProbeAllows(engine, includeAuth, OwnKey(filtered[index])) {
        result := result + [filtered[index]];
      }
      index := index + 1;
    }
    assert filtered[..index] == filtered;
    assert result == ProbeEnv(engine, parent, includeAuth, order);
  }

  predicate IsKeyChar(c: char) { IsUpper(c) || c == '_' }

  lemma ProbeGrantsAreNoProbeKeys(key: string)
    requires key == PI_OFFLINE || key == PI_SKIP
    ensures !IsProbeKey(key)
  {
  }

  lemma ProbeGrantsArePlain(key: string)
    requires key == PI_OFFLINE || key == PI_SKIP
    ensures Canonical(key) == key && '=' !in key
  {
    assert Only(key, IsKeyChar);
    hide Canonical;
    assert !IsSpace(key[0]) && !IsSpace(key[|key| - 1]);
    CanonicalIs(key, key);
  }

  lemma ProbeGrantKeys(engine: string, includeAuth: bool, key: string)
    requires key in ProbeGrants(engine, includeAuth)
    ensures Canonical(key) == key && '=' !in key && !IsProbeKey(key)
  {
    hide Canonical, IsProbeKey;
    ProbeGrantsArePlain(key);
    ProbeGrantsAreNoProbeKeys(key);
  }

  lemma ProbeGrantsDoNotClash(engine: string, includeAuth: bool)
    ensures NoClash(engine, ProbeGrants(engine, includeAuth))
  {
    hide IsForbiddenKey, Canonical, ProbeGrants, IsProbeKey;
    var extra := ProbeGrants(engine, includeAuth);
    forall a, b | Grants(engine, extra, a) && Grants(engine, extra, b) && Canonical(a) == Canonical(b) ensures a == b {
      ProbeGrantKeys(engine, includeAuth, a);
      ProbeGrantKeys(engine, includeAuth, b);
    }
  }

  lemma GrantIsNoProbeEntry(engine: string, includeAuth: bool, e: string)
    requires IsGrant(engine, ProbeGrants(engine, includeAuth), e)
    ensures !IsProbeKey(OwnKey(e))
  {
    hide IsForbiddenKey, Canonical, ProbeGrants, IsProbeKey, KeyOf, Entry;
    var extra := ProbeGrants(engine, includeAuth);
    var key :| Grants(engine, extra, key) && e == Entry(key, extra[key]);
    ProbeGrantKeys(engine, includeAuth, key);
    EntryKey(key, extra[key]);
  }

  lemma KeptInBothProbes(engine: string, parent: seq<string>, e: string)
    requires IsProbeKey(OwnKey(e))
    ensures IsKept(engine, parent, ProbeGrants(engine, true), e)
            <==> IsKept(engine, parent, ProbeGrants(engine, false), e)
  {
    hide IsForbiddenKey, Canonical, ProbeGrants, IsProbeKey, OwnKey, LastInherited;
    forall includeAuth, key | Grants(engine, ProbeGrants(engine, includeAuth), key)
      ensures Canonical(key) != OwnKey(e)
    {
      ProbeGrantKeys(engine, includeAuth, key);
    }
  }

  /**
    The probe that may use credentials sees everything the version probe sees; of the keys that serve no
    authentication it sees nothing more.
   */
  lemma VersionProbeIsContained(engine: string, parent: seq<string>, a: seq<string>, b: seq<string>, e: string)
    requires IsOrder(a, ProbeGrants(engine, false).Keys) && IsOrder(b, ProbeGrants(engine, true).Keys)
    ensures e in ProbeEnv(engine, parent, false, a) <==> e in ProbeEnv(engine, parent, true, b) && IsProbeKey(OwnKey(e))
  {
    hide Build, ProbeGrants, IsProbeKey, OwnKey, IsOrder, IsGrant, IsKept, NoClash, IsAuthKey;
    ProbeGrantsDoNotClash(engine, false);
    ProbeGrantsDoNotClash(engine, true);
    EnvironmentIsExactly(engine, parent, ProbeGrants(engine, false), a, e);
    EnvironmentIsExactly(engine, parent, ProbeGrants(engine, true), b, e);
    if IsProbeKey(OwnKey(e)) {
      KeptInBothProbes(engine, parent, e);
      if IsGrant(engine, ProbeGrants(engine, true), e) {
        GrantIsNoProbeEntry(engine, true, e);
      }
      if IsGrant(engine, ProbeGrants(engine, false), e) {
        GrantIsNoProbeEntry(engine, false, e);
      }
    }
  }
}
