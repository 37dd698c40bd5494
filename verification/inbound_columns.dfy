/** Which answer each operation on configurations and numbers gets, and what it writes, column by column. */
module InboundColumns {
  import opened Common
  import opened InboundRouting

  /** The operation leaves every number but `except` as it was. */
  ghost predicate NumbersStay(db: Db, db': Db, except: set<nat>) {
    forall n :: n in db.numbers && n !in except ==> n in db'.numbers && db'.numbers[n] == db.numbers[n]
  }

  ghost predicate ConfigsStay(db: Db, db': Db, except: set<nat>) {
    forall c :: c in db.configs && c !in except ==> c in db'.configs && db'.configs[c] == db.configs[c]
  }

  /** The organization has another configuration of that name. */
  ghost predicate SameName(db: Db, organization: nat, name: string, except: set<nat>) {
    exists c :: c in db.configs && c !in except && db.configs[c].organization == organization
                && db.configs[c].name == name
  }

  // ---------------------------------------------------------------------------
  // Configurations
  // ---------------------------------------------------------------------------

  /** A new configuration is refused exactly for its name; stored, it alone can take the default mark from another. */
  lemma CreateConfigOutcome(w: World, db: Db, organization: nat, name: string, provider: string,
                            credentials: map<string, string>, outbound: bool)
    requires Valid(db)
    ensures var r := Apply(w, db, CreateConfig(organization, name, provider, credentials, outbound));
            && (r.Err? <==> SameName(db, organization, name, {})) && (r.Err? ==> r.error == NameConflict)
            && (r.Ok? ==>
                  var id, db' := db.nextConfig, r.value;
                  var marked := outbound || forall c :: c in db.configs ==> db.configs[c].organization != organization;
                  && db'.configs.Keys == db.configs.Keys + {id} && db'.numbers == db.numbers && db'.nextConfig == id + 1
                  && db'.configs[id].organization == organization && db'.configs[id].name == name
                  && db'.configs[id].provider == provider && db'.configs[id].credentials == credentials
                  && db'.configs[id].outbound == marked
                  && forall c :: c in db.configs ==>
                       db'.configs[c] == if marked && db.configs[c].organization == organization
                                         then db.configs[c].(outbound := false) else db.configs[c])
  {
    assert NameTaken(db, organization, name, None) <==> SameName(db, organization, name, {});
  }

  /** An edit writes what is given, and is refused for a foreign configuration or for a name in use. */
  lemma EditOutcome(db: Db, config: nat, organization: nat, name: Option<string>,
                    credentials: Option<map<string, string>>)
    ensures var r := Edited(db, config, organization, name, credentials);
            && (r == Err(NotFound) <==> config !in db.configs || db.configs[config].organization != organization)
            && (r == Err(NameConflict) <==>
                  && config in db.configs && db.configs[config].organization == organization
                  && name.Some? && SameName(db, organization, name.value, {config}))
            && (r.Ok? || r == Err(NotFound) || r == Err(NameConflict))
            && (r.Ok? ==>
                  var before, after := db.configs[config], r.value.configs;
                  && after.Keys == db.configs.Keys && r.value.numbers == db.numbers
                  && ConfigsStay(db, r.value, {config})
                  && after[config].organization == before.organization && after[config].provider == before.provider
                  && after[config].outbound == before.outbound
                  && (name.Some? ==> after[config].name == name.value)
                  && (name.None? ==> after[config].name == before.name)
                  && (credentials.Some? ==> after[config].credentials == credentials.value)
                  && (credentials.None? ==> after[config].credentials == before.credentials))
  {
    if name.Some? {
      assert NameTaken(db, organization, name.value, Some(config))
             <==> SameName(db, organization, name.value, {config});
    }
  }

  /** A rename in a history changes the name and nothing else, for the owner and if no other configuration has it. */
  lemma RenameOutcome(w: World, db: Db, config: nat, organization: nat, name: string)
    requires Valid(db)
    ensures var r := Apply(w, db, Rename(config, organization, name));
            && (r.Ok? <==> config in db.configs && db.configs[config].organization == organization
                           && !SameName(db, organization, name, {config}))
            && (r.Ok? ==> r.value == db.(configs := db.configs[config := db.configs[config].(name := name)]))
  {
    EditOutcome(db, config, organization, Some(name), None);
  }

  /** Deleting a configuration takes its numbers along and nothing else; in use by campaigns it stays. */
  lemma DeleteConfigOutcome(w: World, db: Db, config: nat, organization: nat, campaignsRefer: bool)
    requires Valid(db)
    ensures var r := Apply(w, db, DeleteConfig(config, organization, campaignsRefer));
            var mine := config in db.configs && db.configs[config].organization == organization;
            && (r == Err(NotFound) <==> !mine) && (r == Err(InUse) <==> mine && campaignsRefer)
            && (r.Ok? <==> mine && !campaignsRefer)
            && (r.Ok? ==>
                  && r.value.configs.Keys == db.configs.Keys - {config} && ConfigsStay(db, r.value, {config})
                  && (forall n :: n in r.value.numbers <==> n in db.numbers && db.numbers[n].config != config)
                  && forall n :: n in r.value.numbers ==> r.value.numbers[n] == db.numbers[n])
  {
  }

  /** The default mark moves to the configuration, within its organization. */
  lemma SetOutboundOutcome(w: World, db: Db, config: nat, organization: nat)
    requires Valid(db)
    ensures var r := Apply(w, db, SetOutbound(config, organization));
            && (r.Ok? <==> config in db.configs && db.configs[config].organization == organization)
            && (r.Err? ==> r.error == NotFound)
            && (r.Ok? ==>
                  && r.value.configs.Keys == db.configs.Keys && r.value.numbers == db.numbers
                  && forall c :: c in db.configs ==>
                       r.value.configs[c] == if db.configs[c].organization == organization
                                             then db.configs[c].(outbound := c == config) else db.configs[c])
  {
  }

  // ---------------------------------------------------------------------------
  // Numbers
  // ---------------------------------------------------------------------------

  /** What a form stores: the address as typed and as normalized, the country as given or else as implied. */
  predicate StoredFrom(n: Number, organization: nat, config: nat, form: NewNumber, a: Address) {
    && n.organization == organization && n.config == config && n.address == form.address && n.canonical == a.canonical
    && n.active == form.active && n.caller == form.caller
    && n.details.tag == form.details.tag && n.details.workflow == form.details.workflow
    && n.details.metadata == form.details.metadata
    && (form.details.country.Some? && |form.details.country.value| > 0 ==> n.details.country == form.details.country)
    && (form.details.country.None? || |form.details.country.value| == 0 ==> n.details.country == a.country)
  }

  /** Some number of any configuration already reaches the same provider account under the same address. */
  ghost predicate Reached(w: World, db: Db, config: nat, canonical: string)
    requires Valid(db) && config in db.configs
  {
    var field := w.accountField(db.configs[config].provider);
    && db.configs[config].provider != "" && field != ""
    && field in db.configs[config].credentials && db.configs[config].credentials[field] != ""
    && exists n :: n in db.numbers && db.numbers[n].canonical == canonical
                   && SameAccount(w, db, config, db.numbers[n].config)
  }

  /** The two configurations are of one provider and one account there. */
  predicate SameAccount(w: World, db: Db, c: nat, d: nat)
    requires c in db.configs && d in db.configs
  {
    var field := w.accountField(db.configs[c].provider);
    && db.configs[c].provider == db.configs[d].provider
    && field in db.configs[c].credentials && field in db.configs[d].credentials
    && db.configs[c].credentials[field] == db.configs[d].credentials[field]
  }

  lemma ReachedExactlyWhen(w: World, db: Db, config: nat, canonical: string)
    requires Valid(db) && config in db.configs
    ensures Conflict(w, db, config, canonical) <==> Reached(w, db, config, canonical)
  {
    if Conflict(w, db, config, canonical) {
      var n :| n in Matching(w, db, Key(db.configs[config].provider, Account(w, db.configs[config]).value, canonical));
      assert db.numbers[n].canonical == canonical && SameAccount(w, db, config, db.numbers[n].config);
    }
    if Reached(w, db, config, canonical) {
      var n :| && n in db.numbers && db.numbers[n].canonical == canonical
               && SameAccount(w, db, config, db.numbers[n].config);
      assert n in Matching(w, db, Key(db.configs[config].provider, Account(w, db.configs[config]).value, canonical));
    }
  }

  /** Each refusal of a new number has its own condition, in this order; stored, it is what the form says. */
  lemma CreateNumberOutcome(w: World, db: Db, config: nat, organization: nat, form: NewNumber, workflowFound: bool,
                            owned: bool)
    requires Valid(db)
    ensures var r := Apply(w, db, CreateNumber(config, organization, form, workflowFound, owned));
            var found := && config in db.configs && db.configs[config].organization == organization
                         && (form.details.workflow.Some? ==> workflowFound);
            var a := w.normalize(form.address, form.details.country);
            && (r == Err(NotFound) <==> !found)
            && (r == Err(NotOwned) <==> found && !owned)
            && (r == Err(InvalidAddress) <==> found && owned && a.None?)
            && (r == Err(RoutingConflict) <==>
                  found && owned && a.Some? && Reached(w, db, config, a.value.canonical))
            && (r == Err(AddressConflict) <==>
                  && found && owned && a.Some? && !Reached(w, db, config, a.value.canonical)
                  && exists n :: n in db.numbers && db.numbers[n].organization == organization
                                 && db.numbers[n].canonical == a.value.canonical)
            && (r.Ok? ==>
                  var id, db' := db.nextNumber, r.value;
                  && found && owned && a.Some? && db'.numbers.Keys == db.numbers.Keys + {id}
                  && db'.configs == db.configs && db'.nextNumber == id + 1
                  && StoredFrom(db'.numbers[id], organization, config, form, a.value)
                  && forall n :: n in db.numbers ==>
                       db'.numbers[n] == if form.caller && db.numbers[n].config == config
                                         then db.numbers[n].(caller := false) else db.numbers[n])
            && (r.Err? ==> r.error in {NotFound, NotOwned, InvalidAddress, RoutingConflict, AddressConflict})
  {
    var a := w.normalize(form.address, form.details.country);
    if config in db.configs && a.Some? {
      ReachedExactlyWhen(w, db, config, a.value.canonical);
    }
  }

  /** A change takes effect on exactly the fields it gives; a given workflow wins over clearing it. */
  lemma UpdateNumberOutcome(w: World, db: Db, number: nat, config: nat, change: NumberChange)
    requires Valid(db)
    ensures var r := Apply(w, db, UpdateNumber(number, config, change));
            && (r.Ok? <==> number in db.numbers && db.numbers[number].config == config)
            && (r.Err? ==> r.error == NotFound)
            && (r.Ok? ==>
                  && r.value.numbers.Keys == db.numbers.Keys && r.value.configs == db.configs
                  && NumbersStay(db, r.value, {number})
                  && Changed(db.numbers[number], r.value.numbers[number], change))
  {
  }

  predicate Changed(n: Number, m: Number, change: NumberChange) {
    && m.organization == n.organization && m.config == n.config && m.address == n.address && m.canonical == n.canonical
    && m.caller == n.caller
    && (change.active.Some? ==> m.active == change.active.value)
    && (change.active.None? ==> m.active == n.active)
    && (change.tag.Some? ==> m.details.tag == change.tag)
    && (change.tag.None? ==> m.details.tag == n.details.tag)
    && (change.workflow.Some? ==> m.details.workflow == change.workflow)
    && (change.workflow.None? && change.clearWorkflow ==> m.details.workflow == None)
    && (change.workflow.None? && !change.clearWorkflow ==> m.details.workflow == n.details.workflow)
    && (change.country.Some? ==> m.details.country == change.country)
    && (change.country.None? ==> m.details.country == n.details.country)
    && (change.metadata.Some? ==> m.details.metadata == change.metadata.value)
    && (change.metadata.None? ==> m.details.metadata == n.details.metadata)
  }

  /** The default mark moves to the number, within its configuration. */
  lemma SetCallerOutcome(w: World, db: Db, number: nat, config: nat)
    requires Valid(db)
    ensures var r := Apply(w, db, SetCaller(number, config));
            && (r.Ok? <==> number in db.numbers && db.numbers[number].config == config)
            && (r.Err? ==> r.error == NotFound)
            && (r.Ok? ==>
                  && r.value.numbers.Keys == db.numbers.Keys && r.value.configs == db.configs
                  && forall n :: n in db.numbers ==>
                       r.value.numbers[n] == if db.numbers[n].config == config
                                             then db.numbers[n].(caller := n == number) else db.numbers[n])
  {
  }

  lemma DeleteNumberOutcome(w: World, db: Db, number: nat, config: nat)
    requires Valid(db)
    ensures var r := Apply(w, db, DeleteNumber(number, config));
            && (r.Ok? <==> number in db.numbers && db.numbers[number].config == config)
            && (r.Err? ==> r.error == NotFound)
            && (r.Ok? ==>
                  && r.value.numbers.Keys == db.numbers.Keys - {number} && r.value.configs == db.configs
                  && NumbersStay(db, r.value, {number}))
  {
  }

  /** Switching a number on or off decides whether inbound calls reach it, and nothing else about its route. */
  lemma ActivationDecides(w: World, db: Db, number: nat, config: nat, change: NumberChange, key: Key, on: bool)
    requires Valid(db) && number in db.numbers && db.numbers[number].config == config && change.active == Some(on)
    ensures var db' := After(w, db, UpdateNumber(number, config, change));
            && Valid(db')
            && (IsRoute(w, db', key, None, number) <==> on && KeyOf(w, db, db.numbers[number]) == Some(key))
            && forall n :: n != number && n in db.numbers ==>
                 (IsRoute(w, db', key, None, n) <==> IsRoute(w, db, key, None, n))
  {
    UpdateNumberOutcome(w, db, number, config, change);
    var db' := After(w, db, UpdateNumber(number, config, change));
    forall n | n in db.numbers
      ensures KeyOf(w, db', db'.numbers[n]) == KeyOf(w, db, db.numbers[n])
    {
    }
  }

  /** What a lookup finds: active numbers of the address whose configuration has that provider and that account. */
  lemma RouteExactlyWhen(w: World, db: Db, provider: string, account: string, canonical: string,
                         organization: Option<nat>, n: nat)
    requires Valid(db)
    ensures IsRoute(w, db, Key(provider, account, canonical), organization, n) <==>
            && n in db.numbers && db.numbers[n].active && db.numbers[n].canonical == canonical
            && var c, field := db.configs[db.numbers[n].config], w.accountField(provider);
               && c.provider == provider && |provider| > 0 && |field| > 0 && |account| > 0
               && field in c.credentials && c.credentials[field] == account
               && (organization == None || organization == Some(c.organization))
  {
  }
}
