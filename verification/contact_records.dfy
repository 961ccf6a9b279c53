/** Validation and normalisation of the rows the spreadsheet API returns:
    `validatePhoneNumber`, `validateBotMode`, `isValidContact`,
    `sanitizeContact` and `validateContacts`, a filter-then-map over loosely
    typed values that yields the dashboard's contact records. */
module ContactRecords {
  import opened JsValues
  import opened JsStrings
  import opened Selection
  import opened Config

  /** A sanitised contact: exactly the five fields `sanitizeContact` builds.
      `key`, `modo` and `timestampUltima` keep whatever value the row held
      (or their defaults); `nome` and `numero` are trimmed strings. */
  datatype Contact = Contact(key: JsValue, nome: string, numero: string, modo: JsValue, timestampUltima: JsValue)

  /** Every character of `s` is in the phone pattern's class exactly when
      every character left after removing whitespace is, because whitespace
      is itself in the class. */
  lemma PhoneCharsOfStripped(s: string)
    ensures (forall k :: 0 <= k < |StripSpaces(s)| ==> IsPhonePatternChar(StripSpaces(s)[k]))
            <==> (forall i :: 0 <= i < |s| ==> IsPhonePatternChar(s[i]))
  {
    var clean := StripSpaces(s);
    StripSpacesMembers(s);
    if forall k :: 0 <= k < |clean| ==> IsPhonePatternChar(clean[k]) {
      forall i | 0 <= i < |s| ensures IsPhonePatternChar(s[i]) {
        if !IsJsSpace(s[i]) {
          assert s[i] in clean;
          var k :| 0 <= k < |clean| && clean[k] == s[i];
        }
      }
    }
    if forall i :: 0 <= i < |s| ==> IsPhonePatternChar(s[i]) {
      forall k | 0 <= k < |clean| ensures IsPhonePatternChar(clean[k]) {
        assert clean[k] in s;
      }
    }
  }

  /** `validatePhoneNumber(phone)`: a string that, with every whitespace
      character removed, has 10 to 15 characters, all of them digits,
      `-`, `+`, `(` or `)`. Whitespace may appear anywhere in the original. */
  function ValidatePhoneNumber(phone: JsValue): (ok: bool)
    ensures ok <==> phone.JStr?
                    && MIN_PHONE_LENGTH <= |StripSpaces(phone.s)| <= MAX_PHONE_LENGTH
                    && forall i :: 0 <= i < |phone.s| ==> IsPhonePatternChar(phone.s[i])
    ensures ok ==> |phone.s| >= MIN_PHONE_LENGTH
  {
    if !Truthy(phone) || !phone.JStr? then false
    else
      var clean := StripSpaces(phone.s);
      PhoneCharsOfStripped(phone.s);
      MIN_PHONE_LENGTH <= |clean| && |clean| <= MAX_PHONE_LENGTH && MatchesPhonePattern(clean)
  }

  /** `Object.values(CONFIG.BOT_MODES)`, in declaration order. */
  function BotModeValues(): seq<JsValue> {
    [JStr(BOT_ACTIVE), JStr(BOT_INACTIVE)]
  }

  /** The modes `validateBotMode` accepts are the values of the
      configuration's `BOT_MODES` entry, read through the object, which has
      exactly the keys `ACTIVE` and `INACTIVE`. */
  lemma BotModesAreConfigured()
    ensures Resolve(CONFIG, ["BOT_MODES"]).JObj?
    ensures Resolve(CONFIG, ["BOT_MODES"]).fields.Keys == {"ACTIVE", "INACTIVE"}
    ensures BotModeValues() == [Resolve(CONFIG, ["BOT_MODES", "ACTIVE"]), Resolve(CONFIG, ["BOT_MODES", "INACTIVE"])]
  {
    ConstantsConsistent();
  }

  /** `validateBotMode(mode)`: the mode is one of the two configured values,
      compared strictly, so only the exact strings `'bot'` and `'OFF'`. */
  function ValidateBotMode(mode: JsValue): (ok: bool)
    ensures ok <==> mode == JStr("bot") || mode == JStr("OFF")
  {
    mode in BotModeValues()
  }

  /** The name `isValidContact` and `sanitizeContact` read: `nome`, or
      `Nome` when `nome` is falsy. */
  function NameField(row: JsValue): (v: JsValue)
    ensures Truthy(Get(row, "nome")) ==> v == Get(row, "nome")
    ensures !Truthy(Get(row, "nome")) ==> v == Get(row, "Nome")
  {
    Or(Get(row, "nome"), Get(row, "Nome"))
  }

  /** What `sanitizeContact` needs not to throw: a string `numero` to trim,
      and a name chain that ends in a string. */
  predicate Sanitizable(row: JsValue) {
    Get(row, "numero").JStr? && (NameField(row).JStr? || !Truthy(NameField(row)))
  }

  /** `isValidContact(contact)`: a plain object (null and arrays are
      rejected) with a non-empty string `numero` that passes phone
      validation, and a non-empty string name. A truthy `nome` that is not
      a string is not replaced by `Nome`: the row is rejected. */
  function IsValidContact(row: JsValue): (ok: bool)
    ensures ok <==> row.JObj?
                    && "numero" in row.fields && ValidatePhoneNumber(row.fields["numero"])
                    && (if "nome" in row.fields && Truthy(row.fields["nome"])
                        then row.fields["nome"].JStr?
                        else "Nome" in row.fields && row.fields["Nome"].JStr? && row.fields["Nome"].s != "")
    ensures ok ==> Sanitizable(row)
  {
    if !Truthy(row) || !TypeofObject(row) then false
    else if !Truthy(Get(row, "numero")) || !Get(row, "numero").JStr? then false
    else
      var nome := NameField(row);
      if !Truthy(nome) || !nome.JStr? then false
      else ValidatePhoneNumber(Get(row, "numero"))
  }

  /** `sanitizeContact(contact)`: the five output fields with their
      defaults. `Key` falls back to `numero`; the name prefers `nome` over
      `Nome` and falls back to `'Sem nome'`, and is trimmed; `numero` is
      trimmed; a falsy `modo` becomes `'OFF'`; a falsy `timestamp_ultima`
      becomes null. Every other field of the row is dropped. */
  function SanitizeContact(row: JsValue): (c: Contact)
    requires Sanitizable(row)
    ensures Truthy(Get(row, "Key")) ==> c.key == Get(row, "Key")
    ensures !Truthy(Get(row, "Key")) ==> c.key == Get(row, "numero")
    ensures Truthy(Get(row, "nome")) ==> c.nome == Trim(Get(row, "nome").s)
    ensures !Truthy(Get(row, "nome")) && Truthy(Get(row, "Nome")) ==> c.nome == Trim(Get(row, "Nome").s)
    ensures !Truthy(Get(row, "nome")) && !Truthy(Get(row, "Nome")) ==> c.nome == "Sem nome"
    ensures c.numero == Trim(Get(row, "numero").s)
    ensures Truthy(Get(row, "modo")) ==> c.modo == Get(row, "modo")
    ensures !Truthy(Get(row, "modo")) ==> c.modo == JStr(BOT_INACTIVE)
    ensures Truthy(c.modo)
    ensures Truthy(Get(row, "timestamp_ultima")) ==> c.timestampUltima == Get(row, "timestamp_ultima")
    ensures !Truthy(Get(row, "timestamp_ultima")) ==> c.timestampUltima == JNull
  {
    var nome := NameField(row);
    Contact(
      Or(Get(row, "Key"), Get(row, "numero")),
      // the default 'Sem nome' has no surrounding whitespace to trim
      if Truthy(nome) then Trim(nome.s) else "Sem nome",
      Trim(Get(row, "numero").s),
      Or(Get(row, "modo"), JStr(BOT_INACTIVE)),
      Or(Get(row, "timestamp_ultima"), JNull))
  }

  /** A contact as the object the dashboard holds and sends back. */
  function ContactToJs(c: Contact): (v: JsValue)
    ensures v.JObj? && v.fields.Keys == {"Key", "nome", "numero", "modo", "timestamp_ultima"}
    ensures Get(v, "Key") == c.key && Get(v, "nome") == JStr(c.nome) && Get(v, "numero") == JStr(c.numero)
    ensures Get(v, "modo") == c.modo && Get(v, "timestamp_ultima") == c.timestampUltima
  {
    JObj(map["Key" := c.key, "nome" := JStr(c.nome), "numero" := JStr(c.numero),
             "modo" := c.modo, "timestamp_ultima" := c.timestampUltima])
  }

  /** Trimming the number of a valid row keeps it valid: only leading and
      trailing whitespace goes, and whitespace does not count. */
  lemma SanitizedNumberValid(row: JsValue)
    requires IsValidContact(row)
    ensures ValidatePhoneNumber(JStr(SanitizeContact(row).numero))
  {
    var s := Get(row, "numero").s;
    TrimmedPhoneValid(s);
  }

  lemma TrimmedPhoneValid(s: string)
    requires ValidatePhoneNumber(JStr(s))
    ensures ValidatePhoneNumber(JStr(Trim(s)))
  {
    var t := Trim(s);
    TrimStrip(s);
    PhoneCharsOfStripped(s);
    PhoneCharsOfStripped(t);
  }

  /** The shape of a sanitised contact: trimmed name and number, a truthy
      mode, a timestamp that is truthy or null, and a key that is truthy or
      the (then empty) number. */
  predicate IsSanitized(c: Contact) {
    && Trim(c.nome) == c.nome
    && Trim(c.numero) == c.numero
    && Truthy(c.modo)
    && (Truthy(c.timestampUltima) || c.timestampUltima == JNull)
    && (Truthy(c.key) || c.key == JStr(c.numero))
  }

  /** Every sanitised contact has that shape. */
  lemma SanitizeShape(row: JsValue)
    requires Sanitizable(row)
    ensures IsSanitized(SanitizeContact(row))
  {
    SanitizedNameTrimmed(row);
    SanitizedNumberTrimmed(row);
  }

  lemma SanitizedNumberTrimmed(row: JsValue)
    requires Sanitizable(row)
    ensures Trim(SanitizeContact(row).numero) == SanitizeContact(row).numero
    ensures Truthy(SanitizeContact(row).key) || SanitizeContact(row).key == JStr(SanitizeContact(row).numero)
  {
    var n := Get(row, "numero").s;
    var c := SanitizeContact(row);
    if n == "" {
      assert Trim(n) == [];
      assert c.numero == "";
    } else {
      TrimIdempotent(n);
      assert Truthy(c.key);
    }
  }

  lemma SanitizedNameTrimmed(row: JsValue)
    requires Sanitizable(row)
    ensures Trim(SanitizeContact(row).nome) == SanitizeContact(row).nome
  {
    var nome := NameField(row);
    if Truthy(nome) {
      TrimIdempotent(nome.s);
    } else {
      assert "Sem nome"[0] == 'S' && "Sem nome"[7] == 'e';
      TrimUntouched("Sem nome");
    }
  }

  /** Sanitising the object form of a contact of that shape with a
      non-blank name gives the contact back. */
  lemma SanitizeFixesSanitized(c: Contact)
    requires IsSanitized(c) && c.nome != ""
    ensures Sanitizable(ContactToJs(c))
    ensures SanitizeContact(ContactToJs(c)) == c
  {
    SanitizeOfFields(ContactToJs(c), c);
  }

  /** Any row whose fields hold a sanitised contact's values sanitises to
      that contact. */
  lemma SanitizeOfFields(v: JsValue, c: Contact)
    requires IsSanitized(c) && c.nome != ""
    requires Get(v, "Key") == c.key && Get(v, "nome") == JStr(c.nome) && Get(v, "numero") == JStr(c.numero)
    requires Get(v, "modo") == c.modo && Get(v, "timestamp_ultima") == c.timestampUltima
    ensures Sanitizable(v)
    ensures SanitizeContact(v) == c
  {
    assert NameField(v) == JStr(c.nome);
  }

  /** Sanitising is idempotent through the object form: a sanitised contact
      whose name is not blank comes back unchanged. */
  lemma SanitizeIdempotent(row: JsValue)
    requires Sanitizable(row)
    requires SanitizeContact(row).nome != ""
    ensures Sanitizable(ContactToJs(SanitizeContact(row)))
    ensures SanitizeContact(ContactToJs(SanitizeContact(row))) == SanitizeContact(row)
  {
    SanitizeShape(row);
    SanitizeFixesSanitized(SanitizeContact(row));
  }

  /** The one exception to idempotence: a sanitised contact whose name was
      trimmed to empty has a falsy `nome`, so sanitising it again falls back
      to `'Sem nome'`. */
  lemma BlankNameResanitised(row: JsValue)
    requires Sanitizable(row)
    requires SanitizeContact(row).nome == ""
    ensures Sanitizable(ContactToJs(SanitizeContact(row)))
    ensures SanitizeContact(ContactToJs(SanitizeContact(row))).nome == "Sem nome"
    ensures SanitizeContact(ContactToJs(SanitizeContact(row))) != SanitizeContact(row)
  {
    var v := ContactToJs(SanitizeContact(row));
    assert "Nome" !in v.fields;
    assert !Truthy(Get(v, "nome")) && !Truthy(Get(v, "Nome"));
  }

  /** Validation and sanitising read only six fields of a row: setting any
      other field leaves both results unchanged. */
  lemma OtherFieldsIgnored(fields: map<string, JsValue>, k: string, v: JsValue)
    requires k !in {"Key", "nome", "Nome", "numero", "modo", "timestamp_ultima"}
    ensures IsValidContact(JObj(fields[k := v])) == IsValidContact(JObj(fields))
    ensures Sanitizable(JObj(fields[k := v])) == Sanitizable(JObj(fields))
    ensures Sanitizable(JObj(fields)) ==> SanitizeContact(JObj(fields[k := v])) == SanitizeContact(JObj(fields))
  {
    var row, row' := JObj(fields), JObj(fields[k := v]);
    assert Get(row', "Key") == Get(row, "Key");
    assert Get(row', "nome") == Get(row, "nome");
    assert Get(row', "Nome") == Get(row, "Nome");
    assert Get(row', "numero") == Get(row, "numero");
    assert Get(row', "modo") == Get(row, "modo");
    assert Get(row', "timestamp_ultima") == Get(row, "timestamp_ultima");
  }

  /** A row whose name is only whitespace is accepted, and its sanitised
      name is empty rather than the `'Sem nome'` default. */
  lemma BlankNameKeptEmpty(numero: string, nome: string)
    requires ValidatePhoneNumber(JStr(numero))
    requires nome != [] && AllSpace(nome)
    ensures IsValidContact(JObj(map["numero" := JStr(numero), "nome" := JStr(nome)]))
    ensures SanitizeContact(JObj(map["numero" := JStr(numero), "nome" := JStr(nome)])).nome == ""
  {
    TrimEmptyIff(nome);
  }

  /** `validateContacts(contacts)`: an array yields the sanitised form of
      exactly the valid rows, in input order; anything else is an error. */
  function ValidateContacts(contacts: JsValue): (r: Result<seq<Contact>>)
    ensures r.Err? <==> !contacts.JArr?
    ensures r.Err? ==> r.message == "Lista de contatos deve ser um array"
    ensures r.Ok? ==>
              var kept := KeptIndices(contacts.items, IsValidContact);
              && |r.value| == |kept|
              && forall k :: 0 <= k < |kept| ==> r.value[k] == SanitizeContact(contacts.items[kept[k]])
  {
    if !contacts.JArr? then Err("Lista de contatos deve ser um array")
    else
      var valid := Filter(contacts.items, IsValidContact);
      FilterSelectsInOrder(contacts.items, IsValidContact);
      Ok(seq(|valid|, k requires 0 <= k < |valid| => SanitizeContact(valid[k])))
  }

  /** Every contact `validateContacts` returns has a number that passes
      phone validation, and no row is dropped when all are valid. */
  lemma ValidatedContactsValid(contacts: JsValue)
    requires contacts.JArr?
    ensures var r := ValidateContacts(contacts).value;
            forall k :: 0 <= k < |r| ==> ValidatePhoneNumber(JStr(r[k].numero))
    ensures (forall i :: 0 <= i < |contacts.items| ==> IsValidContact(contacts.items[i])) ==>
              |ValidateContacts(contacts).value| == |contacts.items|
  {
    var items := contacts.items;
    var kept := KeptIndices(items, IsValidContact);
    forall k | 0 <= k < |kept| ensures ValidatePhoneNumber(JStr(ValidateContacts(contacts).value[k].numero)) {
      SanitizedNumberValid(items[kept[k]]);
    }
    FilterSelectsInOrder(items, IsValidContact);
    FilterKeepsAllIff(items, IsValidContact);
  }
}
