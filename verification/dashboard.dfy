/** The view logic of the dashboard: the mode filter and search over the
    contact list, the Brazilian phone format, the bot-mode toggle and its
    local update, the header counters, and the refresh guard. The DOM the
    dashboard renders into is left out; the state it reads and writes is the
    record `UiState`. */
module Dashboard {
  import opened JsValues
  import opened JsStrings
  import opened Selection
  import opened Config
  import opened ContactRecords
  import opened RequestRetry
  import opened BotModeApi

  /** The fields of the UI manager the modelled handlers use. `currentFilter`
      is `'all'` or the mode a filter button names. */
  datatype UiState = UiState(
    contacts: seq<Contact>,
    filteredContacts: seq<Contact>,
    currentFilter: string,
    searchTerm: string,
    isLoading: bool)

  const FILTER_ALL: string := "all"

  /** The mode filter: `'all'` keeps everything, any other value keeps the
      contacts whose `modo` is strictly equal to it. */
  function ModePred(filter: string): Contact -> bool {
    (c: Contact) => c.modo == JStr(filter)
  }

  /** The search: the lowercased name or the number contains the term. */
  function SearchPred(term: string): Contact -> bool {
    (c: Contact) => Contains(ToLowerAscii(c.nome), term) || Contains(c.numero, term)
  }

  /** What the dashboard shows, as one test per contact: it passes the mode
      filter (unless that is `'all'`) and the search (unless the term is
      empty). */
  function Visible(filter: string, term: string): Contact -> bool {
    (c: Contact) => (filter == FILTER_ALL || c.modo == JStr(filter))
         && (term == "" || Contains(ToLowerAscii(c.nome), term) || Contains(c.numero, term))
  }

  /** The two filter stages of `applyFilters`: the mode filter when it is
      not `'all'`, then the search when the term is non-empty. The result is
      the single filter by `Visible`. */
  function FilterContacts(contacts: seq<Contact>, filter: string, term: string): (r: seq<Contact>)
    ensures r == Filter(contacts, Visible(filter, term))
  {
    var byMode := if filter != FILTER_ALL then Filter(contacts, ModePred(filter)) else contacts;
    var bySearch := if term != "" then Filter(byMode, SearchPred(term)) else byMode;
    if filter != FILTER_ALL && term != "" then
      FilterTwice(contacts, ModePred(filter), SearchPred(term), Visible(filter, term));
      bySearch
    else if filter != FILTER_ALL then
      FilterAgreeing(contacts, ModePred(filter), Visible(filter, term));
      bySearch
    else if term != "" then
      FilterAgreeing(contacts, SearchPred(term), Visible(filter, term));
      bySearch
    else
      FilterKeepsAll(contacts, Visible(filter, term));
      bySearch
  }

  /** With filter `'all'` and no search term the whole list is shown. */
  lemma ShowAllIsIdentity(contacts: seq<Contact>)
    ensures FilterContacts(contacts, FILTER_ALL, "") == contacts
  {
    FilterKeepsAll(contacts, Visible(FILTER_ALL, ""));
  }

  /** The shown list is the visible contacts, in list order; with a mode
      filter every one of them has that mode. */
  lemma FilteredInOrder(contacts: seq<Contact>, filter: string, term: string)
    ensures SelectsInOrder(contacts, Visible(filter, term), FilterContacts(contacts, filter, term))
    ensures filter != FILTER_ALL ==>
              var r := FilterContacts(contacts, filter, term);
              forall k :: 0 <= k < |r| ==> r[k].modo == JStr(filter)
  {
    FilterSelectsInOrder(contacts, Visible(filter, term));
  }

  /** With a non-empty term, a contact of the list that passes the mode
      filter is shown exactly when its lowercased name or its number
      contains the term. */
  lemma SearchShowsExactly(contacts: seq<Contact>, filter: string, term: string, i: nat)
    requires term != "" && i < |contacts|
    requires filter == FILTER_ALL || contacts[i].modo == JStr(filter)
    ensures contacts[i] in FilterContacts(contacts, filter, term) <==>
              Contains(ToLowerAscii(contacts[i].nome), term) || Contains(contacts[i].numero, term)
  {
    var r := FilterContacts(contacts, filter, term);
    FilterMembers(contacts, Visible(filter, term));
    if contacts[i] in r {
      var k :| 0 <= k < |r| && r[k] == contacts[i];
      assert Visible(filter, term)(r[k]);
    }
  }

  /** `applyFilters()`: recompute the shown list; nothing else changes. */
  function ApplyFilters(st: UiState): (r: UiState)
    ensures r.filteredContacts == Filter(st.contacts, Visible(st.currentFilter, st.searchTerm))
    ensures r.(filteredContacts := st.filteredContacts) == st
  {
    st.(filteredContacts := FilterContacts(st.contacts, st.currentFilter, st.searchTerm))
  }

  /** `handleSearch(term)`: store the term lowercased and trimmed, and
      refilter. A term that is all whitespace switches the search off. */
  function HandleSearch(st: UiState, term: string): (r: UiState)
    ensures r.searchTerm == Trim(ToLowerAscii(term))
    ensures AllSpace(term) ==> r.searchTerm == "" && r.filteredContacts == Filter(st.contacts, Visible(st.currentFilter, ""))
    ensures r.filteredContacts == Filter(st.contacts, Visible(st.currentFilter, r.searchTerm))
    ensures r.contacts == st.contacts && r.currentFilter == st.currentFilter && r.isLoading == st.isLoading
  {
    var lowered := ToLowerAscii(term);
    LowerKeepsSpaces(term);
    TrimEmptyIff(lowered);
    ApplyFilters(st.(searchTerm := Trim(lowered)))
  }

  /** The stored term has no upper-case letter and no surrounding space. */
  lemma SearchTermNormalised(term: string)
    ensures var t := Trim(ToLowerAscii(term));
            && (t == [] || (!IsJsSpace(t[0]) && !IsJsSpace(t[|t| - 1])))
            && forall k :: 0 <= k < |t| ==> !('A' <= t[k] <= 'Z')
  {
    TrimIsMiddle(ToLowerAscii(term));
  }

  /** `handleFilter(filter)`: store the filter and refilter. */
  function HandleFilter(st: UiState, filter: string): (r: UiState)
    ensures r.currentFilter == filter
    ensures r.filteredContacts == Filter(st.contacts, Visible(filter, st.searchTerm))
    ensures r.contacts == st.contacts && r.searchTerm == st.searchTerm && r.isLoading == st.isLoading
  {
    ApplyFilters(st.(currentFilter := filter))
  }

  /** Only the last filter chosen matters: choosing `f1` and then `f2`
      leaves the same state as choosing `f2` alone, and choosing the same
      filter again changes nothing. */
  lemma LastFilterWins(st: UiState, f1: string, f2: string)
    ensures HandleFilter(HandleFilter(st, f1), f2) == HandleFilter(st, f2)
    ensures HandleFilter(HandleFilter(st, f1), f1) == HandleFilter(st, f1)
  {
  }

  /** `phone.replace(/\D/g, '')`: the digits of `phone`, in order. */
  function Digits(s: string): (d: string)
    ensures forall k :: 0 <= k < |d| ==> IsDigit(d[k])
  {
    Filter(s, IsDigit)
  }

  /** `(XX) XXXXX-XXXX` around eleven digits. */
  function Formatted(d: string): string
    requires |d| == 11
  {
    ['('] + d[..2] + [')', ' '] + d[2..7] + ['-'] + d[7..]
  }

  /** The layout adds no digit and loses none. */
  lemma FormattedDigits(d: string)
    requires |d| == 11
    requires forall k :: 0 <= k < |d| ==> IsDigit(d[k])
    ensures Digits(Formatted(d)) == d
  {
    FilterSeparated(['('], d[..2], [')', ' '], d[2..7], ['-'], d[7..], IsDigit);
    assert d[..2] + d[2..7] + d[7..] == d;
  }

  /** `formatPhoneNumber(phone)`: a number with exactly eleven digits (a
      Brazilian mobile with area code) is laid out as `(XX) XXXXX-XXXX`,
      fifteen characters that keep the digits in order; any other input is
      returned as it is. */
  function FormatPhoneNumber(phone: string): (r: string)
    ensures |Digits(phone)| == 11 ==>
              && |r| == 15
              && Digits(r) == Digits(phone)
              && r[0] == '(' && r[3] == ')' && r[4] == ' ' && r[10] == '-'
              && r[1..3] == Digits(phone)[..2] && r[5..10] == Digits(phone)[2..7] && r[11..] == Digits(phone)[7..]
    ensures |Digits(phone)| != 11 ==> r == phone
  {
    var cleaned := Digits(phone);
    if |cleaned| == 11 then
      FormattedDigits(cleaned);
      Formatted(cleaned)
    else phone
  }

  /** Formatting an already formatted number changes nothing. */
  lemma FormatIdempotent(phone: string)
    ensures FormatPhoneNumber(FormatPhoneNumber(phone)) == FormatPhoneNumber(phone)
  {
    var d := Digits(phone);
    if |d| == 11 {
      FormattedDigits(d);
    }
  }

  /** The mode the toggle button asks for: `'OFF'` when the card shows the
      bot active, `'bot'` for any other current mode. */
  function ToggledMode(currentMode: string): (m: string)
    ensures m == BOT_INACTIVE <==> currentMode == BOT_ACTIVE
    ensures m == BOT_ACTIVE || m == BOT_INACTIVE
    ensures ValidateBotMode(JStr(m))
  {
    if currentMode == BOT_ACTIVE then BOT_INACTIVE else BOT_ACTIVE
  }

  /** Toggling twice from either configured mode returns to it. */
  lemma ToggleInvolution(currentMode: string)
    requires currentMode == BOT_ACTIVE || currentMode == BOT_INACTIVE
    ensures ToggledMode(ToggledMode(currentMode)) == currentMode
  {
    ConstantsConsistent();
  }

  /** `i` is the position `contacts.find(c => c.numero === numero)` picks. */
  ghost predicate FirstMatch(contacts: seq<Contact>, numero: string, i: nat) {
    i < |contacts| && contacts[i].numero == numero
    && forall j :: 0 <= j < i ==> contacts[j].numero != numero
  }

  /** `contacts.find(c => c.numero === numero)`, as a position. */
  function FindByNumero(contacts: seq<Contact>, numero: string): (r: Option<nat>)
    ensures r.Some? ==> FirstMatch(contacts, numero, r.value)
    ensures r.None? <==> forall j :: 0 <= j < |contacts| ==> contacts[j].numero != numero
  {
    if contacts == [] then None
    else if contacts[0].numero == numero then Some(0)
    else
      var rest := FindByNumero(contacts[1..], numero);
      assert forall j :: 1 <= j < |contacts| ==> contacts[j] == contacts[1..][j - 1];
      match rest
      case None => None
      case Some(k) => Some(k + 1)
  }

  /** How a click on a toggle button ends. */
  datatype ToggleOutcome =
    | ContactNotFound
    | Cancelled
    | Toggled(newMode: string)
    | ToggleFailed(message: string)

  /** The state after the click, how it ended, and the payload posted to
      the webhook if any. */
  datatype ToggleResult = ToggleResult(state: UiState, outcome: ToggleOutcome, sent: Option<Payload>)

  /** The contact after a successful toggle: the new mode and the time of
      the local update; every other field is kept. */
  function WithMode(c: Contact, newMode: string, updatedAt: string): (d: Contact)
    ensures d.modo == JStr(newMode) && d.timestampUltima == JStr(updatedAt)
    ensures d.key == c.key && d.nome == c.nome && d.numero == c.numero
  {
    c.(modo := JStr(newMode), timestampUltima := JStr(updatedAt))
  }

  /** `handleToggleBot` for the button of `numero` showing `currentMode`.
      `confirmed` is the user's answer to the confirmation dialog, `sentAt`
      and `updatedAt` the two clock readings (payload and local update), and
      `outcomes` the scripted webhook. Nothing changes unless a contact has
      that number, the user confirms and the update succeeds; then only the
      first contact with that number changes, in its mode and timestamp,
      and the shown list is recomputed. */
  function HandleToggleBot(st: UiState, numero: string, currentMode: string, confirmed: bool,
                           sentAt: string, updatedAt: string, outcomes: seq<FetchOutcome>): (res: ToggleResult)
    requires RETRY_ATTEMPTS <= |outcomes|
    ensures |res.state.contacts| == |st.contacts|
    ensures res.outcome.ContactNotFound? <==> forall j :: 0 <= j < |st.contacts| ==> st.contacts[j].numero != numero
    ensures res.outcome.Cancelled? <==> !res.outcome.ContactNotFound? && !confirmed
    ensures !res.outcome.Toggled? ==> res.state == st
    ensures res.sent.Some? ==> confirmed && res.sent.value.modo == ToggledMode(currentMode)
    ensures res.outcome.ContactNotFound? || res.outcome.Cancelled? ==> res.sent.None?
    ensures !res.outcome.ContactNotFound? && confirmed ==>
              var u := UpdateBotMode(JStr(numero), JStr(ToggledMode(currentMode)), sentAt, outcomes);
              && res.sent == u.sent
              && (res.outcome.Toggled? <==> u.result.Ok?)
              && (res.outcome.ToggleFailed? <==> u.result.Err?)
              && (res.outcome.ToggleFailed? ==> res.outcome.message == u.result.message)
    ensures res.outcome.ToggleFailed? ==> UPDATE_FAILED_PREFIX <= res.outcome.message
    ensures res.outcome.Toggled? ==>
              && confirmed
              && res.outcome.newMode == ToggledMode(currentMode)
              && res.sent == Some(Payload(numero, ToggledMode(currentMode), sentAt))
              && exists i: nat :: FirstMatch(st.contacts, numero, i)
                             && res.state.contacts == st.contacts[i := WithMode(st.contacts[i], res.outcome.newMode, updatedAt)]
    ensures res.outcome.Toggled? ==>
              && res.state.currentFilter == st.currentFilter
              && res.state.searchTerm == st.searchTerm
              && res.state.isLoading == st.isLoading
              && res.state.filteredContacts == Filter(res.state.contacts, Visible(st.currentFilter, st.searchTerm))
  {
    var newMode := ToggledMode(currentMode);
    match FindByNumero(st.contacts, numero)
    case None => ToggleResult(st, ContactNotFound, None)
    case Some(i) =>
      if !confirmed then ToggleResult(st, Cancelled, None)
      else
        var u := UpdateBotMode(JStr(numero), JStr(newMode), sentAt, outcomes);
        match u.result
        case Err(message) => ToggleResult(st, ToggleFailed(message), u.sent)
        case Ok(_) =>
          var updated := st.contacts[i := WithMode(st.contacts[i], newMode, updatedAt)];
          assert FirstMatch(st.contacts, numero, i);
          ToggleResult(ApplyFilters(st.(contacts := updated)), Toggled(newMode), u.sent)
  }

  /** A toggle touches one contact: every other contact, and the name,
      number and key of every contact, are kept. */
  lemma ToggleTouchesOneContact(st: UiState, numero: string, currentMode: string, confirmed: bool,
                                sentAt: string, updatedAt: string, outcomes: seq<FetchOutcome>)
    requires RETRY_ATTEMPTS <= |outcomes|
    ensures var res := HandleToggleBot(st, numero, currentMode, confirmed, sentAt, updatedAt, outcomes);
            && |res.state.contacts| == |st.contacts|
            && (forall j :: 0 <= j < |st.contacts| ==>
                  && res.state.contacts[j].numero == st.contacts[j].numero
                  && res.state.contacts[j].nome == st.contacts[j].nome
                  && res.state.contacts[j].key == st.contacts[j].key)
            && (forall j :: 0 <= j < |st.contacts| && st.contacts[j].numero != numero ==>
                  res.state.contacts[j] == st.contacts[j])
  {
    var res := HandleToggleBot(st, numero, currentMode, confirmed, sentAt, updatedAt, outcomes);
    if res.outcome.Toggled? {
      var i: nat :| FirstMatch(st.contacts, numero, i)
                    && res.state.contacts == st.contacts[i := WithMode(st.contacts[i], res.outcome.newMode, updatedAt)];
      MatchUpdateKeepsOthers(st.contacts, numero, i, WithMode(st.contacts[i], res.outcome.newMode, updatedAt));
    }
  }

  /** Replacing the contact at a position holding `numero` by one with the
      same name, number and key keeps those fields everywhere and every
      contact with another number. */
  lemma MatchUpdateKeepsOthers(contacts: seq<Contact>, numero: string, i: nat, d: Contact)
    requires i < |contacts| && contacts[i].numero == numero
    requires d.numero == numero && d.nome == contacts[i].nome && d.key == contacts[i].key
    ensures var u := contacts[i := d];
            && (forall j :: 0 <= j < |contacts| ==>
                  u[j].numero == contacts[j].numero && u[j].nome == contacts[j].nome && u[j].key == contacts[j].key)
            && (forall j :: 0 <= j < |contacts| && contacts[j].numero != numero ==> u[j] == contacts[j])
  {
  }

  /** The header counters. */
  datatype Stats = Stats(totalContacts: nat, activeBots: nat)

  predicate IsActive(c: Contact) {
    c.modo == JStr(BOT_ACTIVE)
  }

  /** `updateStats()`: the number of contacts and the number of them whose
      mode is `'bot'`. */
  function UpdateStats(contacts: seq<Contact>): (s: Stats)
    ensures s.totalContacts == |contacts|
    ensures s.activeBots <= s.totalContacts
    ensures s.activeBots == |Filter(contacts, IsActive)|
  {
    Stats(|contacts|, |Filter(contacts, IsActive)|)
  }

  /** Every bot is active exactly when the counters agree, and none is
      exactly when the active count is zero. */
  lemma StatsExtremes(contacts: seq<Contact>)
    ensures UpdateStats(contacts).activeBots == |contacts| <==> forall i :: 0 <= i < |contacts| ==> IsActive(contacts[i])
    ensures UpdateStats(contacts).activeBots == 0 <==> forall i :: 0 <= i < |contacts| ==> !IsActive(contacts[i])
  {
    FilterKeepsAllIff(contacts, IsActive);
    FilterEmptyIff(contacts, IsActive);
  }

  /** Switching off an active contact lowers the active count by one, and
      switching on an inactive one raises it by one; the total is kept. */
  lemma ToggleMovesCount(contacts: seq<Contact>, i: nat, newMode: string, updatedAt: string)
    requires i < |contacts|
    requires newMode == ToggledMode(if IsActive(contacts[i]) then BOT_ACTIVE else BOT_INACTIVE)
    ensures var after := UpdateStats(contacts[i := WithMode(contacts[i], newMode, updatedAt)]);
            && after.totalContacts == |contacts|
            && after.activeBots == UpdateStats(contacts).activeBots + (if IsActive(contacts[i]) then -1 else 1)
  {
    ConstantsConsistent();
    FilterUpdateCount(contacts, i, WithMode(contacts[i], newMode, updatedAt), IsActive);
  }

  /** How a refresh ends. */
  datatype RefreshOutcome = AlreadyLoading | Refreshed | RefreshFailed

  /** The state after the refresh, how it ended, and the values `isLoading`
      took on the way, in order. */
  datatype RefreshResult = RefreshResult(state: UiState, outcome: RefreshOutcome, loadingTrace: seq<bool>)

  /** `showLoading()` and `hideLoading()` as state changes. */
  function ShowLoading(st: UiState): (r: UiState)
    ensures r.isLoading && r.(isLoading := st.isLoading) == st
  {
    st.(isLoading := true)
  }

  function HideLoading(st: UiState): (r: UiState)
    ensures !r.isLoading && r.(isLoading := st.isLoading) == st
  {
    st.(isLoading := false)
  }

  /** Showing and then hiding the loading indicator from an idle state
      returns to that state; both are idempotent. */
  lemma LoadingRoundTrip(st: UiState)
    ensures !st.isLoading ==> HideLoading(ShowLoading(st)) == st
    ensures st.isLoading ==> ShowLoading(HideLoading(st)) == st
    ensures ShowLoading(ShowLoading(st)) == ShowLoading(st)
    ensures HideLoading(HideLoading(st)) == HideLoading(st)
  {
  }

  /** `handleRefresh()`, with `loadSucceeded` the outcome of reloading the
      contacts (which happens outside this model). A refresh while one is
      loading does nothing; otherwise the loading flag is raised for the
      reload and always lowered afterwards, whether the reload failed or
      not. */
  function HandleRefresh(st: UiState, loadSucceeded: bool): (r: RefreshResult)
    ensures st.isLoading ==> r == RefreshResult(st, AlreadyLoading, [])
    ensures !st.isLoading ==>
              && r.state == st
              && r.loadingTrace == [true, false]
              && (r.outcome == Refreshed <==> loadSucceeded)
              && (r.outcome == RefreshFailed <==> !loadSucceeded)
    ensures !r.state.isLoading <==> !st.isLoading
  {
    if st.isLoading then RefreshResult(st, AlreadyLoading, [])
    else
      var loading := ShowLoading(st);
      var done := HideLoading(loading);
      RefreshResult(done, if loadSucceeded then Refreshed else RefreshFailed, [loading.isLoading, done.isLoading])
  }

  /** A second refresh issued while the first is loading is ignored. */
  lemma RefreshWhileLoadingIgnored(st: UiState, loadSucceeded: bool)
    ensures HandleRefresh(ShowLoading(st), loadSucceeded).outcome == AlreadyLoading
    ensures HandleRefresh(ShowLoading(st), loadSucceeded).state == ShowLoading(st)
  {
  }
}
