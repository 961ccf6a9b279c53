/** The application configuration object and its start-up check: the fixed
    endpoints, request policy, bot-mode values, user-facing messages and
    phone-number bounds, and `validateConfig`, which resolves dotted paths
    with optional chaining and fails on the first falsy one. */
module Config {
  import opened JsValues
  import opened JsStrings

  const SHEET_BEST_URL: string := "https://api.sheetbest.com/sheets/ec6ca1f8-de13-4cad-a4b1-1e1919ff5d48"
  const N8N_WEBHOOK_URL: string := "https://gazeredo.app.n8n.cloud/webhook-test/604b8346-e309-4199-ad53-419ab978fd28"

  /** Per-attempt timeout, attempt budget and base backoff delay (ms). */
  const REQUEST_TIMEOUT: int := 10000
  const RETRY_ATTEMPTS: int := 3
  const RETRY_DELAY: int := 1000

  const AUTO_REFRESH_INTERVAL: int := 30000
  const TOAST_DURATION: int := 5000
  const ANIMATION_DURATION: int := 300
  const DEBOUNCE_DELAY: int := 500

  /** The two bot modes a contact can be in. */
  const BOT_ACTIVE: string := "bot"
  const BOT_INACTIVE: string := "OFF"

  const MSG_LOADING: string := "Carregando dados..."
  const MSG_ERROR_LOAD: string := "Erro ao carregar contatos"
  const MSG_ERROR_UPDATE: string := "Erro ao atualizar modo do bot"
  const MSG_SUCCESS_UPDATE: string := "Modo do bot atualizado com sucesso"
  const MSG_CONFIRM_ACTIVATE: string := "Tem certeza que deseja ativar o bot para este contato?"
  const MSG_CONFIRM_DEACTIVATE: string := "Tem certeza que deseja desativar o bot para este contato?"
  const MSG_NO_CONTACTS: string := "Nenhum contato encontrado"
  const MSG_NETWORK_ERROR: string := "Erro de conexão. Verifique sua internet."
  const MSG_TIMEOUT_ERROR: string := "Tempo limite excedido. Tente novamente."
  const MSG_UNKNOWN_ERROR: string := "Erro desconhecido. Tente novamente."

  const MIN_PHONE_LENGTH: int := 10
  const MAX_PHONE_LENGTH: int := 15

  /** One character of the class `[\d\s\-\+\(\)]` of `PHONE_PATTERN`. */
  predicate IsPhonePatternChar(c: char) {
    IsDigit(c) || IsJsSpace(c) || c == '-' || c == '+' || c == '(' || c == ')'
  }

  /** `PHONE_PATTERN.test(s)` for `/^[\d\s\-\+\(\)]+$/`: the whole string is
      one or more characters of the class. */
  predicate MatchesPhonePattern(s: string) {
    |s| >= 1 && forall i :: 0 <= i < |s| ==> IsPhonePatternChar(s[i])
  }

  /** The configuration as the JavaScript object the dotted paths walk. The
      regular expression is an object, so it is truthy; its contents are
      modelled by `MatchesPhonePattern`. */
  const CONFIG: JsValue := JObj(map[
    "API" := JObj(map[
      "SHEET_BEST" := JStr(SHEET_BEST_URL),
      "N8N_WEBHOOK" := JStr(N8N_WEBHOOK_URL)]),
    "REQUEST" := JObj(map[
      "TIMEOUT" := JNum(REQUEST_TIMEOUT),
      "RETRY_ATTEMPTS" := JNum(RETRY_ATTEMPTS),
      "RETRY_DELAY" := JNum(RETRY_DELAY)]),
    "UI" := JObj(map[
      "AUTO_REFRESH_INTERVAL" := JNum(AUTO_REFRESH_INTERVAL),
      "TOAST_DURATION" := JNum(TOAST_DURATION),
      "ANIMATION_DURATION" := JNum(ANIMATION_DURATION),
      "DEBOUNCE_DELAY" := JNum(DEBOUNCE_DELAY)]),
    "BOT_MODES" := JObj(map[
      "ACTIVE" := JStr(BOT_ACTIVE),
      "INACTIVE" := JStr(BOT_INACTIVE)]),
    "MESSAGES" := JObj(map[
      "LOADING" := JStr(MSG_LOADING),
      "ERROR_LOAD" := JStr(MSG_ERROR_LOAD),
      "ERROR_UPDATE" := JStr(MSG_ERROR_UPDATE),
      "SUCCESS_UPDATE" := JStr(MSG_SUCCESS_UPDATE),
      "CONFIRM_ACTIVATE" := JStr(MSG_CONFIRM_ACTIVATE),
      "CONFIRM_DEACTIVATE" := JStr(MSG_CONFIRM_DEACTIVATE),
      "NO_CONTACTS" := JStr(MSG_NO_CONTACTS),
      "NETWORK_ERROR" := JStr(MSG_NETWORK_ERROR),
      "TIMEOUT_ERROR" := JStr(MSG_TIMEOUT_ERROR),
      "UNKNOWN_ERROR" := JStr(MSG_UNKNOWN_ERROR)]),
    "VALIDATION" := JObj(map[
      "MIN_PHONE_LENGTH" := JNum(MIN_PHONE_LENGTH),
      "MAX_PHONE_LENGTH" := JNum(MAX_PHONE_LENGTH),
      "PHONE_PATTERN" := JObj(map[])])
  ])

  /** The paths `validateConfig` insists on. */
  const REQUIRED_FIELDS: seq<string> := ["API.SHEET_BEST", "API.N8N_WEBHOOK"]

  /** One step `obj?.[key]` of the reduction: null and undefined
      short-circuit to undefined instead of throwing. */
  function ChainStep(v: JsValue, key: string): (r: JsValue)
    ensures v.JNull? || v.JUndefined? ==> r == JUndefined
  {
    if v.JNull? || v.JUndefined? then JUndefined else Get(v, key)
  }

  /** `keys.reduce((obj, key) => obj?.[key], root)`. */
  function Resolve(root: JsValue, keys: seq<string>): JsValue
    decreases |keys|
  {
    if keys == [] then root else Resolve(ChainStep(root, keys[0]), keys[1..])
  }

  /** Resolving a path one key longer is one more optional-chaining step. */
  lemma {:induction false} ResolveSnoc(root: JsValue, keys: seq<string>, key: string)
    ensures Resolve(root, keys + [key]) == ChainStep(Resolve(root, keys), key)
    decreases |keys|
  {
    if keys != [] {
      assert (keys + [key])[1..] == keys[1..] + [key];
      ResolveSnoc(ChainStep(root, keys[0]), keys[1..], key);
    }
  }

  /** Optional chaining: once a path prefix is missing (undefined), every
      extension of it resolves to undefined rather than failing. */
  lemma {:induction false} MissingPrefixAbsorbs(root: JsValue, keys: seq<string>, more: seq<string>)
    requires Resolve(root, keys) == JUndefined
    ensures Resolve(root, keys + more) == JUndefined
    decreases |more|
  {
    if more == [] {
      assert keys + more == keys;
    } else {
      var init := more[..|more| - 1];
      assert keys + more == (keys + init) + [more[|more| - 1]];
      MissingPrefixAbsorbs(root, keys, init);
      ResolveSnoc(root, keys + init, more[|more| - 1]);
    }
  }

  /** The value a dotted configuration path denotes. */
  function ResolvePath(root: JsValue, path: string): JsValue {
    Resolve(root, Split(path, '.'))
  }

  /** The result of `validateConfig`: the first required path that resolves
      to a falsy value is the one reported on the console. */
  datatype ConfigCheck = Valid | Missing(field: string)

  /** `validateConfig` over the required `fields`, returning as soon as one
      path resolves to a falsy value. */
  function ValidateConfig(root: JsValue, fields: seq<string>): (r: ConfigCheck)
    ensures r == Valid <==> forall i :: 0 <= i < |fields| ==> Truthy(ResolvePath(root, fields[i]))
    ensures r.Missing? ==>
              exists i :: (0 <= i < |fields| && r.field == fields[i]
                           && !Truthy(ResolvePath(root, fields[i]))
                           && forall j :: 0 <= j < i ==> Truthy(ResolvePath(root, fields[j])))
    decreases |fields|
  {
    if fields == [] then Valid
    else if !Truthy(ResolvePath(root, fields[0])) then Missing(fields[0])
    else
      var rest := ValidateConfig(root, fields[1..]);
      assert forall i :: 1 <= i < |fields| ==> fields[i] == fields[1..][i - 1];
      rest
  }

  /** `validateConfig()` as it runs at load time: true exactly when every
      required path resolves to a truthy value. */
  function ValidateConfigOk(root: JsValue): (ok: bool)
    ensures ok <==> Truthy(ResolvePath(root, "API.SHEET_BEST")) && Truthy(ResolvePath(root, "API.N8N_WEBHOOK"))
  {
    var r := ValidateConfig(root, REQUIRED_FIELDS);
    assert REQUIRED_FIELDS[0] == "API.SHEET_BEST" && REQUIRED_FIELDS[1] == "API.N8N_WEBHOOK";
    r == Valid
  }

  /** A two-segment dotted path splits into its two segments. */
  lemma SplitTwoSegments(a: string, b: string)
    requires '.' !in a && '.' !in b
    ensures Split(a + ['.'] + b, '.') == [a, b]
  {
    SplitAtFirst(a, b, '.');
    SplitWithout(b, '.');
  }

  /** The two required paths split into `API` and the endpoint's key. */
  lemma SplitApiPaths()
    ensures Split("API.SHEET_BEST", '.') == ["API", "SHEET_BEST"]
    ensures Split("API.N8N_WEBHOOK", '.') == ["API", "N8N_WEBHOOK"]
  {
    SplitSheetPath();
    SplitWebhookPath();
  }

  lemma SplitSheetPath()
    ensures Split("API.SHEET_BEST", '.') == ["API", "SHEET_BEST"]
  {
    assert "API.SHEET_BEST" == "API" + ['.'] + "SHEET_BEST";
    SplitTwoSegments("API", "SHEET_BEST");
  }

  lemma SplitWebhookPath()
    ensures Split("API.N8N_WEBHOOK", '.') == ["API", "N8N_WEBHOOK"]
  {
    assert "API.N8N_WEBHOOK" == "API" + ['.'] + "N8N_WEBHOOK";
    SplitTwoSegments("API", "N8N_WEBHOOK");
  }

  lemma ShippedApiUrls()
    ensures Resolve(CONFIG, ["API", "SHEET_BEST"]) == JStr(SHEET_BEST_URL)
    ensures Resolve(CONFIG, ["API", "N8N_WEBHOOK"]) == JStr(N8N_WEBHOOK_URL)
  {
  }

  /** The shipped configuration passes its own check. */
  lemma ShippedConfigValid()
    ensures ValidateConfigOk(CONFIG)
  {
    SplitApiPaths();
    ShippedApiUrls();
  }

  /** A configuration whose webhook URL is blank. */
  const BLANK_WEBHOOK_CONFIG: JsValue :=
    JObj(map["API" := JObj(map["SHEET_BEST" := JStr(SHEET_BEST_URL), "N8N_WEBHOOK" := JStr("")])])

  lemma BlankWebhookUrls()
    ensures Resolve(BLANK_WEBHOOK_CONFIG, ["API", "SHEET_BEST"]) == JStr(SHEET_BEST_URL)
    ensures Resolve(BLANK_WEBHOOK_CONFIG, ["API", "N8N_WEBHOOK"]) == JStr("")
  {
  }

  /** Blanking the webhook URL makes the check fail and report that path,
      after the sheet URL has passed. */
  lemma MissingWebhookReported()
    ensures ValidateConfig(BLANK_WEBHOOK_CONFIG, REQUIRED_FIELDS) == Missing("API.N8N_WEBHOOK")
  {
    SplitApiPaths();
    BlankWebhookUrls();
    assert REQUIRED_FIELDS[1..] == ["API.N8N_WEBHOOK"];
  }

  /** The bot modes are exactly two distinct values, and the phone-length
      bounds form a non-empty range. */
  lemma ConstantsConsistent()
    ensures BOT_ACTIVE != BOT_INACTIVE
    ensures 0 < MIN_PHONE_LENGTH <= MAX_PHONE_LENGTH
    ensures Resolve(CONFIG, ["BOT_MODES", "ACTIVE"]) == JStr(BOT_ACTIVE)
    ensures Resolve(CONFIG, ["BOT_MODES", "INACTIVE"]) == JStr(BOT_INACTIVE)
  {
  }
}
