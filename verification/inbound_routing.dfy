/**
 Inbound call routing: telephony configurations, their phone numbers, and the lookup that finds the one
 (configuration, number) pair for a provider account and a called address.
 */
module InboundRouting {
  import opened Common

  datatype Config = Config(
    organization: nat,
    name: string,
    provider: string,
    credentials: map<string, string>,
    outbound: bool)  // the organization's default for outgoing calls

  datatype Number = Number(
    organization: nat,
    config: nat,
    address: string,
    canonical: string,
    active: bool,
    caller: bool,  // the configuration's default caller id
    details: Details)

  /** The columns of a number that routing does not look at. */
  datatype Details = Details(tag: Option<string>, workflow: Option<nat>, country: Option<string>, metadata: Json)

  /** The form of a new number. */
  datatype NewNumber = NewNumber(address: string, active: bool, caller: bool, details: Details)

  /** A partial update: `None` leaves a column; the address cannot be changed. */
  datatype NumberChange = NumberChange(
    tag: Option<string>,
    workflow: Option<nat>,
    clearWorkflow: bool,
    active: Option<bool>,
    country: Option<string>,
    metadata: Option<Json>)

  /** A normalized address, with the country it implies if any. */
  datatype Address = Address(canonical: string, country: Option<string>)

  /** The two tables and the next values of their id sequences. */
  datatype Db = Db(
    configs: map<nat, Config>,
    numbers: map<nat, Number>,
    nextConfig: nat,
    nextNumber: nat)

  /** What the model takes from elsewhere: the registry's account field per provider, and address normalization. */
  datatype World = World(
    accountField: string -> string,
    normalize: (string, Option<string>) -> Option<Address>)

  datatype Op =
    | CreateConfig(organization: nat, name: string, provider: string, credentials: map<string, string>, outbound: bool)
    | Rename(config: nat, organization: nat, name: string)
    | SetOutbound(config: nat, organization: nat)
    | DeleteConfig(config: nat, organization: nat, campaignsRefer: bool)
    | CreateNumber(config: nat, organization: nat, form: NewNumber, workflowFound: bool, owned: bool)
    | UpdateNumber(number: nat, config: nat, change: NumberChange)
    | SetCaller(number: nat, config: nat)
    | DeleteNumber(number: nat, config: nat)

  datatype Failure = NotFound | NotOwned | InvalidAddress | RoutingConflict | AddressConflict | NameConflict | InUse

  // ---------------------------------------------------------------------------
  // Rows and keys
  // ---------------------------------------------------------------------------

  ghost predicate Valid(db: Db) {
    && (forall c :: c in db.configs ==> c < db.nextConfig)
    && (forall n :: n in db.numbers ==>
          && n < db.nextNumber
          && db.numbers[n].config in db.configs
          && db.numbers[n].organization == db.configs[db.numbers[n].config].organization)
  }

  /** The unique constraint on (organization, normalized address). */
  ghost predicate AddressesUnique(db: Db) {
    forall n, m :: n in db.numbers && m in db.numbers && n != m
                   && db.numbers[n].organization == db.numbers[m].organization
      ==> db.numbers[n].canonical != db.numbers[m].canonical
  }

  /** The account id in a configuration's credentials, if its provider has one and it is not empty. */
  function Account(w: World, c: Config): Option<string> {
    var field := w.accountField(c.provider);
    if c.provider != "" && field != "" && field in c.credentials && c.credentials[field] != ""
    then Some(c.credentials[field]) else None
  }

  datatype Key = Key(provider: string, account: string, canonical: string)

  /** What inbound dispatch sees of a number: provider, account and normalized address. */
  function KeyOf(w: World, db: Db, n: Number): Option<Key>
    requires n.config in db.configs
  {
    var c := db.configs[n.config];
    if Account(w, c).Some? then Some(Key(c.provider, Account(w, c).value, n.canonical)) else None
  }

  /** No two numbers, active or not and in whatever organization, look the same to inbound dispatch. */
  ghost predicate RoutesUnique(w: World, db: Db)
    requires Valid(db)
  {
    forall n, m :: n in db.numbers && m in db.numbers && n != m && KeyOf(w, db, db.numbers[n]).Some?
      ==> KeyOf(w, db, db.numbers[n]) != KeyOf(w, db, db.numbers[m])
  }

  /** The rows of the join that match a key. */
  function Matching(w: World, db: Db, key: Key): set<nat>
    requires Valid(db)
  {
    set n | n in db.numbers && KeyOf(w, db, db.numbers[n]) == Some(key)
  }

  // ---------------------------------------------------------------------------
  // The operations
  // ---------------------------------------------------------------------------

  predicate ConfigOf(db: Db, config: nat, organization: nat) {
    config in db.configs && db.configs[config].organization == organization
  }

  predicate NameTaken(db: Db, organization: nat, name: string, except: Option<nat>) {
    exists c :: c in db.configs && Some(c) != except && db.configs[c].organization == organization
                && db.configs[c].name == name
  }

  predicate AddressTaken(db: Db, organization: nat, canonical: string) {
    exists n :: n in db.numbers && db.numbers[n].organization == organization && db.numbers[n].canonical == canonical
  }

  /** The configuration's rows go with it. */
  function WithoutConfig(db: Db, config: nat): Db {
    db.(configs := db.configs - {config},
        numbers := map n | n in db.numbers && db.numbers[n].config != config :: db.numbers[n])
  }

  /** The row of a new number; a country given in the form takes precedence over the implied one. */
  function RowOf(organization: nat, config: nat, form: NewNumber, a: Address): Number {
    var country := if form.details.country.Some? && form.details.country.value != "" then form.details.country
                   else a.country;
    Number(organization, config, form.address, a.canonical, form.active, form.caller,
           form.details.(country := country))
  }

  /** The organization's configurations lose the default mark. */
  function OutboundCleared(configs: map<nat, Config>, organization: nat): map<nat, Config> {
    map c | c in configs ::
      if configs[c].organization == organization then configs[c].(outbound := false) else configs[c]
  }

  /** The configuration's numbers lose the default mark. */
  function CallerCleared(numbers: map<nat, Number>, config: nat): map<nat, Number> {
    map n | n in numbers :: if numbers[n].config == config then numbers[n].(caller := false) else numbers[n]
  }

  function MarkOutbound(db: Db, config: nat, organization: nat): Db
    requires config in db.configs
  {
    var cleared := OutboundCleared(db.configs, organization);
    db.(configs := cleared[config := cleared[config].(outbound := true)])
  }

  function MarkCaller(db: Db, number: nat, config: nat): Db
    requires number in db.numbers
  {
    var cleared := CallerCleared(db.numbers, config);
    db.(numbers := cleared[number := cleared[number].(caller := true)])
  }

  predicate HasConfigs(db: Db, organization: nat) {
    exists c :: c in db.configs && db.configs[c].organization == organization
  }

  /** The first configuration of an organization is its default; a later one may replace the default. */
  function AddConfig(db: Db, c: Config): Db {
    var row := c.(outbound := c.outbound || !HasConfigs(db, c.organization));
    var others := if row.outbound then OutboundCleared(db.configs, c.organization) else db.configs;
    db.(configs := others[db.nextConfig := row], nextConfig := db.nextConfig + 1)
  }

  function AddNumber(db: Db, n: Number): Db {
    var others := if n.caller then CallerCleared(db.numbers, n.config) else db.numbers;
    db.(numbers := others[db.nextNumber := n], nextNumber := db.nextNumber + 1)
  }

  function Updated(n: Number, c: NumberChange): Number {
    var d := n.details;
    n.(active := if c.active.Some? then c.active.value else n.active,
       details := Details(
         if c.tag.Some? then c.tag else d.tag,
         if c.workflow.Some? then c.workflow else if c.clearWorkflow then None else d.workflow,
         if c.country.Some? then c.country else d.country,
         if c.metadata.Some? then c.metadata.value else d.metadata))
  }

  /** Whether the conflict check finds a row with the key that a new number would have. */
  ghost predicate Conflict(w: World, db: Db, config: nat, canonical: string)
    requires Valid(db) && config in db.configs
  {
    Account(w, db.configs[config]).Some?
    && Matching(w, db, Key(db.configs[config].provider, Account(w, db.configs[config]).value, canonical)) != {}
  }

  function Renamed(c: Config, name: Option<string>): Config {
    if name.Some? then c.(name := name.value) else c
  }

  /** `update_telephony_configuration`: a new name must be free; new credentials are not checked. */
  function Edited(db: Db, config: nat, organization: nat, name: Option<string>,
                  credentials: Option<map<string, string>>): Result<Db, Failure>
  {
    if !ConfigOf(db, config, organization) then Err(NotFound)
    else if name.Some? && NameTaken(db, organization, name.value, Some(config)) then Err(NameConflict)
    else
      var row := Renamed(db.configs[config], name);
      Ok(db.(configs :=
           db.configs[config := if credentials.Some? then row.(credentials := credentials.value) else row]))
  }

  ghost function Apply(w: World, db: Db, op: Op): (r: Result<Db, Failure>)
    requires Valid(db)
  {
    match op
    case CreateConfig(org, name, provider, credentials, outbound) =>
      if NameTaken(db, org, name, None) then Err(NameConflict)
      else Ok(AddConfig(db, Config(org, name, provider, credentials, outbound)))
    case Rename(config, org, name) => Edited(db, config, org, Some(name), None)
    case SetOutbound(config, org) =>
      if !ConfigOf(db, config, org) then Err(NotFound)
      else Ok(MarkOutbound(db, config, org))
    case DeleteConfig(config, org, campaignsRefer) =>
      if !ConfigOf(db, config, org) then Err(NotFound)
      else if campaignsRefer then Err(InUse)
      else Ok(WithoutConfig(db, config))
    case CreateNumber(config, org, form, workflowFound, owned) =>
      if !ConfigOf(db, config, org) || (form.details.workflow.Some? && !workflowFound) then Err(NotFound)
      else if !owned then Err(NotOwned)
      else
        match w.normalize(form.address, form.details.country) {
          case None => Err(InvalidAddress)
          case Some(a) =>
            if Conflict(w, db, config, a.canonical) then Err(RoutingConflict)
            else if AddressTaken(db, org, a.canonical) then Err(AddressConflict)
            else Ok(AddNumber(db, RowOf(org, config, form, a)))
        }
    case UpdateNumber(number, config, change) =>
      if number !in db.numbers || db.numbers[number].config != config then Err(NotFound)
      else Ok(db.(numbers := db.numbers[number := Updated(db.numbers[number], change)]))
    case SetCaller(number, config) =>
      if number !in db.numbers || db.numbers[number].config != config then Err(NotFound)
      else Ok(MarkCaller(db, number, config))
    case DeleteNumber(number, config) =>
      if number !in db.numbers || db.numbers[number].config != config then Err(NotFound)
      else Ok(db.(numbers := db.numbers - {number}))
  }

  /** What the database itself enforces. */
  ghost predicate Stored(db: Db) {
    Valid(db) && AddressesUnique(db)
  }

  ghost predicate Inv(w: World, db: Db) {
    Stored(db) && RoutesUnique(w, db)
  }

  ghost function After(w: World, db: Db, op: Op): Db
    requires Valid(db)
  {
    if Apply(w, db, op).Ok? then Apply(w, db, op).value else db
  }

  // ---------------------------------------------------------------------------
  // Uniqueness over histories
  // ---------------------------------------------------------------------------

  lemma AddedKeys(w: World, db: Db, n: Number)
    requires Valid(db) && ConfigOf(db, n.config, n.organization)
    ensures Valid(AddNumber(db, n)) && AddNumber(db, n).numbers.Keys == db.numbers.Keys + {db.nextNumber}
    ensures forall m :: m in db.numbers ==>
              KeyOf(w, AddNumber(db, n), AddNumber(db, n).numbers[m]) == KeyOf(w, db, db.numbers[m])
  {
  }

  /** Adding a number keeps the routes unique exactly when the conflict check finds nothing. */
  lemma CheckIsExact(w: World, db: Db, n: Number)
    requires Valid(db) && RoutesUnique(w, db) && ConfigOf(db, n.config, n.organization)
    ensures Valid(AddNumber(db, n))
    ensures RoutesUnique(w, AddNumber(db, n)) <==> !Conflict(w, db, n.config, n.canonical)
  {
    var db' := AddNumber(db, n);
    AddedKeys(w, db, n);
    assert KeyOf(w, db', n).Some? <==> Account(w, db.configs[n.config]).Some?;
    if Conflict(w, db, n.config, n.canonical) {
      var m: nat :| m in Matching(w, db, KeyOf(w, db', n).value);
      assert KeyOf(w, db', db'.numbers[m]) == KeyOf(w, db', db'.numbers[db.nextNumber]);
    } else if KeyOf(w, db', n).Some? {
      forall m | m in db.numbers
        ensures KeyOf(w, db, db.numbers[m]) != KeyOf(w, db', n)
      {
        assert m !in Matching(w, db, KeyOf(w, db', n).value);
      }
    }
  }

  lemma CreateNumberKeeps(w: World, db: Db, op: Op)
    requires Stored(db) && op.CreateNumber?
    ensures Stored(After(w, db, op)) && (RoutesUnique(w, db) ==> RoutesUnique(w, After(w, db, op)))
  {
    var r := Apply(w, db, op);
    if r.Ok? {
      var n := RowOf(op.organization, op.config, op.form,
                     w.normalize(op.form.address, op.form.details.country).value);
      AddNumberStored(db, n);
      if RoutesUnique(w, db) {
        CheckIsExact(w, db, n);
      }
    }
  }

  lemma AddNumberStored(db: Db, n: Number)
    requires Stored(db) && ConfigOf(db, n.config, n.organization) && !AddressTaken(db, n.organization, n.canonical)
    ensures Stored(AddNumber(db, n))
  {
  }

  /** The rows that stay keep what routing looks at. */
  ghost predicate RowsKept(db: Db, db': Db) {
    && db'.numbers.Keys <= db.numbers.Keys
    && (forall n :: n in db'.numbers ==>
          && db'.numbers[n].organization == db.numbers[n].organization
          && db'.numbers[n].config == db.numbers[n].config && db'.numbers[n].canonical == db.numbers[n].canonical)
    && (forall c :: c in db'.configs && c in db.configs ==>
          && db'.configs[c].provider == db.configs[c].provider
          && db'.configs[c].credentials == db.configs[c].credentials)
  }

  /** Fewer rows, or other names, flags and details, keep the routes unique. */
  lemma FewerRowsKeep(w: World, db: Db, db': Db)
    requires Stored(db) && Valid(db') && RowsKept(db, db')
    ensures Stored(db') && (RoutesUnique(w, db) ==> RoutesUnique(w, db'))
  {
    forall n | n in db'.numbers
      ensures KeyOf(w, db', db'.numbers[n]) == KeyOf(w, db, db.numbers[n])
    {
    }
  }

  lemma AddConfigKeepsRows(db: Db, c: Config)
    requires Valid(db)
    ensures Valid(AddConfig(db, c)) && RowsKept(db, AddConfig(db, c))
  {
  }

  lemma EditKeepsRows(db: Db, config: nat, c: Config)
    requires Valid(db) && config in db.configs && c.organization == db.configs[config].organization
    requires c.provider == db.configs[config].provider && c.credentials == db.configs[config].credentials
    ensures var db' := db.(configs := db.configs[config := c]); Valid(db') && RowsKept(db, db')
  {
  }

  lemma MarkOutboundKeepsRows(db: Db, config: nat, organization: nat)
    requires Valid(db) && config in db.configs
    ensures Valid(MarkOutbound(db, config, organization)) && RowsKept(db, MarkOutbound(db, config, organization))
  {
  }

  lemma WithoutConfigKeepsRows(db: Db, config: nat)
    requires Valid(db)
    ensures Valid(WithoutConfig(db, config)) && RowsKept(db, WithoutConfig(db, config))
  {
  }

  lemma ChangeKeepsRows(db: Db, number: nat, change: NumberChange)
    requires Valid(db) && number in db.numbers
    ensures var db' := db.(numbers := db.numbers[number := Updated(db.numbers[number], change)]);
            Valid(db') && RowsKept(db, db')
  {
  }

  lemma MarkCallerKeepsRows(db: Db, number: nat, config: nat)
    requires Valid(db) && number in db.numbers
    ensures Valid(MarkCaller(db, number, config)) && RowsKept(db, MarkCaller(db, number, config))
  {
  }

  lemma WithoutNumberKeepsRows(db: Db, number: nat)
    requires Valid(db)
    ensures var db' := db.(numbers := db.numbers - {number}); Valid(db') && RowsKept(db, db')
  {
  }

  lemma OtherOpsKeepRows(w: World, db: Db, op: Op)
    requires Valid(db) && !op.CreateNumber? && Apply(w, db, op).Ok?
    ensures Valid(After(w, db, op)) && RowsKept(db, After(w, db, op))
  {
    match op
    case CreateConfig(org, name, provider, credentials, outbound) =>
      AddConfigKeepsRows(db, Config(org, name, provider, credentials, outbound));
    case Rename(config, org, name) => EditKeepsRows(db, config, Renamed(db.configs[config], Some(name)));
    case SetOutbound(config, org) => MarkOutboundKeepsRows(db, config, org);
    case DeleteConfig(config, _, _) => WithoutConfigKeepsRows(db, config);
    case UpdateNumber(number, _, change) => ChangeKeepsRows(db, number, change);
    case SetCaller(number, config) => MarkCallerKeepsRows(db, number, config);
    case DeleteNumber(number, _) => WithoutNumberKeepsRows(db, number);
    case CreateNumber(_, _, _, _, _) =>
  }

  /** Every operation keeps what the database enforces, and keeps unique routes unique, activation included. */
  lemma StepKeepsInv(w: World, db: Db, op: Op)
    requires Stored(db)
    ensures Stored(After(w, db, op)) && (RoutesUnique(w, db) ==> RoutesUnique(w, After(w, db, op)))
  {
    if op.CreateNumber? {
      CreateNumberKeeps(w, db, op);
    } else if Apply(w, db, op).Ok? {
      OtherOpsKeepRows(w, db, op);
      FewerRowsKeep(w, db, After(w, db, op));
    }
  }

  // ---------------------------------------------------------------------------
  // Default marks
  // ---------------------------------------------------------------------------

  predicate IsOutbound(db: Db, organization: nat, c: nat) {
    c in db.configs && db.configs[c].organization == organization && db.configs[c].outbound
  }

  predicate IsCaller(db: Db, config: nat, n: nat) {
    n in db.numbers && db.numbers[n].config == config && db.numbers[n].caller
  }

  /** An organization has at most one default configuration, and a configuration at most one default caller id. */
  ghost predicate OneDefault(db: Db) {
    && (forall org, c, c' :: IsOutbound(db, org, c) && IsOutbound(db, org, c') ==> c == c')
    && (forall config, n, n' :: IsCaller(db, config, n) && IsCaller(db, config, n') ==> n == n')
  }

  /** Other rows, or fewer, under the same marks. */
  lemma FewerMarksKeep(db: Db, db': Db)
    requires OneDefault(db)
    requires forall org, c :: IsOutbound(db', org, c) ==> IsOutbound(db, org, c)
    requires forall config, n :: IsCaller(db', config, n) ==> IsCaller(db, config, n)
    ensures OneDefault(db')
  {
  }

  /** Marking one configuration after clearing the others. */
  lemma OutboundKeepsOne(db: Db, db': Db, organization: nat, config: nat)
    requires OneDefault(db) && db'.numbers == db.numbers
    requires forall org, c :: IsOutbound(db', org, c) ==>
               if org == organization then c == config else IsOutbound(db, org, c)
    ensures OneDefault(db')
  {
    assert forall config, n :: IsCaller(db', config, n) == IsCaller(db, config, n);
  }

  lemma CallerKeepsOne(db: Db, db': Db, config: nat, number: nat)
    requires OneDefault(db) && db'.configs == db.configs
    requires forall c, n :: IsCaller(db', c, n) ==> if c == config then n == number else IsCaller(db, c, n)
    ensures OneDefault(db')
  {
    assert forall org, c :: IsOutbound(db', org, c) == IsOutbound(db, org, c);
  }

  lemma AddConfigKeepsOne(db: Db, c: Config)
    requires Valid(db) && OneDefault(db)
    ensures OneDefault(AddConfig(db, c))
  {
    var db' := AddConfig(db, c);
    if db'.configs[db.nextConfig].outbound {
      OutboundKeepsOne(db, db', c.organization, db.nextConfig);
    } else {
      FewerMarksKeep(db, db');
    }
  }

  lemma AddNumberKeepsOne(db: Db, n: Number)
    requires Valid(db) && OneDefault(db)
    ensures OneDefault(AddNumber(db, n))
  {
    if n.caller {
      CallerKeepsOne(db, AddNumber(db, n), n.config, db.nextNumber);
    } else {
      FewerMarksKeep(db, AddNumber(db, n));
    }
  }

  /** Every operation keeps the defaults single, so the partial unique indexes never refuse one. */
  lemma StepKeepsOne(w: World, db: Db, op: Op)
    requires Valid(db) && OneDefault(db)
    ensures OneDefault(After(w, db, op))
  {
    var db' := After(w, db, op);
    if Apply(w, db, op).Ok? {
      match op
      case CreateConfig(org, name, provider, credentials, outbound) =>
        AddConfigKeepsOne(db, Config(org, name, provider, credentials, outbound));
      case CreateNumber(config, org, form, _, _) =>
        AddNumberKeepsOne(db, RowOf(org, config, form, w.normalize(form.address, form.details.country).value));
      case SetOutbound(config, org) => OutboundKeepsOne(db, db', org, config);
      case SetCaller(number, config) => CallerKeepsOne(db, db', config, number);
      case _ => FewerMarksKeep(db, db');
    }
  }

  /** The operation deletes the configuration. */
  ghost predicate Deletes(w: World, db: Db, op: Op, config: nat)
    requires Valid(db)
  {
    op.DeleteConfig? && op.config == config && Apply(w, db, op).Ok?
  }

  ghost predicate HasDefault(db: Db, organization: nat) {
    exists c :: IsOutbound(db, organization, c)
  }

  /** An organization loses its default exactly when the default itself is deleted, with others left or not. */
  lemma DefaultLostExactlyWhen(w: World, db: Db, op: Op, organization: nat, c: nat)
    requires Valid(db) && OneDefault(db) && IsOutbound(db, organization, c)
    ensures HasDefault(After(w, db, op), organization) <==> !Deletes(w, db, op, c)
  {
    var db' := After(w, db, op);
    if Deletes(w, db, op, c) {
      assert forall x :: IsOutbound(db', organization, x) ==> IsOutbound(db, organization, x);
    } else if op.SetOutbound? && Apply(w, db, op).Ok? && op.organization == organization {
      assert IsOutbound(db', organization, op.config);
    } else if op.CreateConfig? && Apply(w, db, op).Ok? && op.organization == organization && op.outbound {
      assert IsOutbound(db', organization, db.nextConfig);
    } else {
      assert HasConfigs(db, organization);
      assert IsOutbound(db', organization, c);
    }
  }

  /** The first configuration of an organization becomes its default, asked for or not. */
  lemma FirstIsDefault(w: World, db: Db, op: Op)
    requires Valid(db) && op.CreateConfig? && Apply(w, db, op).Ok? && !HasConfigs(db, op.organization)
    ensures IsOutbound(After(w, db, op), op.organization, db.nextConfig)
  {
  }

  // ---------------------------------------------------------------------------
  // Histories
  // ---------------------------------------------------------------------------

  ghost function Run(w: World, db: Db, ops: seq<Op>): (r: Db)
    requires Inv(w, db)
    ensures Inv(w, r)
    decreases |ops|
  {
    if ops == [] then db
    else
      StepKeepsInv(w, db, ops[0]);
      Run(w, After(w, db, ops[0]), ops[1..])
  }

  const EMPTY := Db(map[], map[], 0, 0)

  // ---------------------------------------------------------------------------
  // The lookup
  // ---------------------------------------------------------------------------

  /** A row the route query may return: an active number with the key, in the organization if one is given. */
  ghost predicate IsRoute(w: World, db: Db, key: Key, organization: Option<nat>, n: nat)
    requires Valid(db)
  {
    && n in Matching(w, db, key)
    && db.numbers[n].active
    && (organization.Some? ==> db.configs[db.numbers[n].config].organization == organization.value)
  }

  /** After any history, at most one pair matches a key, so the first row is the same in every row order. */
  lemma RouteIsUnique(w: World, ops: seq<Op>, key: Key, organization: Option<nat>, n: nat, m: nat)
    requires Inv(w, EMPTY)
    requires IsRoute(w, Run(w, EMPTY, ops), key, organization, n)
    requires IsRoute(w, Run(w, EMPTY, ops), key, None, m)
    ensures n == m
  {
  }

  // ---------------------------------------------------------------------------
  // Editing credentials is not checked
  // ---------------------------------------------------------------------------

  function EditCredentials(db: Db, config: nat, credentials: map<string, string>): Db
    requires config in db.configs
  {
    db.(configs := db.configs[config := db.configs[config].(credentials := credentials)])
  }

  /** Another configuration of the same provider already routes the account to one of this configuration's addresses. */
  ghost predicate AccountClash(w: World, db: Db, config: nat, credentials: map<string, string>, n: nat, m: nat)
    requires Valid(db) && config in db.configs
  {
    var account := Account(w, db.configs[config].(credentials := credentials));
    && account.Some?
    && n in db.numbers && db.numbers[n].config == config
    && m in db.numbers && db.numbers[m].config != config
    && KeyOf(w, db, db.numbers[m]) == Some(Key(db.configs[config].provider, account.value, db.numbers[n].canonical))
  }

  lemma EditedKeys(w: World, db: Db, config: nat, credentials: map<string, string>, n: nat)
    requires Valid(db) && config in db.configs && n in db.numbers
    ensures var db' := EditCredentials(db, config, credentials);
            Valid(db') &&
            KeyOf(w, db', db'.numbers[n])
            == if db.numbers[n].config != config then KeyOf(w, db, db.numbers[n])
               else
                 var account := Account(w, db.configs[config].(credentials := credentials));
                 if account.None? then None
                 else Some(Key(db.configs[config].provider, account.value, db.numbers[n].canonical))
  {
  }

  /** A credential edit keeps the routes unique exactly when it causes no such clash. */
  lemma EditKeepsExactlyWhen(w: World, db: Db, config: nat, credentials: map<string, string>)
    requires Inv(w, db) && config in db.configs
    ensures Valid(EditCredentials(db, config, credentials))
    ensures RoutesUnique(w, EditCredentials(db, config, credentials))
            <==> !exists n, m :: AccountClash(w, db, config, credentials, n, m)
  {
    var db' := EditCredentials(db, config, credentials);
    forall n | n in db.numbers
      ensures Valid(db')
    {
      EditedKeys(w, db, config, credentials, n);
    }
    if n, m :| AccountClash(w, db, config, credentials, n, m) {
      EditedKeys(w, db, config, credentials, n);
      EditedKeys(w, db, config, credentials, m);
      assert KeyOf(w, db', db'.numbers[n]) == KeyOf(w, db', db'.numbers[m]);
    } else {
      forall n, m | n in db'.numbers && m in db'.numbers && n != m && KeyOf(w, db', db'.numbers[n]).Some?
        ensures KeyOf(w, db', db'.numbers[n]) != KeyOf(w, db', db'.numbers[m])
      {
        EditedKeys(w, db, config, credentials, n);
        EditedKeys(w, db, config, credentials, m);
        assert !AccountClash(w, db, config, credentials, n, m) && !AccountClash(w, db, config, credentials, m, n);
      }
    }
  }

  /** Renaming in the same call makes no difference to that. */
  lemma EditedExactlyWhen(w: World, db: Db, config: nat, name: Option<string>, credentials: map<string, string>)
    requires Inv(w, db) && config in db.configs
    requires Edited(db, config, db.configs[config].organization, name, Some(credentials)).Ok?
    ensures var db' := Edited(db, config, db.configs[config].organization, name, Some(credentials)).value;
            && Stored(db')
            && (RoutesUnique(w, db') <==> !exists n, m :: AccountClash(w, db, config, credentials, n, m))
  {
    var plain := EditCredentials(db, config, credentials);
    var db' := Edited(db, config, db.configs[config].organization, name, Some(credentials)).value;
    EditKeepsExactlyWhen(w, db, config, credentials);
    FewerRowsKeep(w, plain, db');
    FewerRowsKeep(w, db', plain);
  }

  const AC1 := map["account_sid" := "AC1"]
  const AC2 := map["account_sid" := "AC2"]
  const FIRST := CreateConfig(1, "main", "twilio", AC1, false)
  const FORM := NewNumber("+15550100", true, false, Details(None, None, None, Null))
  const FIRST_NUMBER := CreateNumber(0, 1, FORM, true, true)
  const SECOND := CreateConfig(2, "main", "twilio", AC2, false)
  const SECOND_NUMBER := CreateNumber(1, 2, FORM, true, true)

  function Called(organization: nat, config: nat): Number {
    Number(organization, config, "+15550100", "+15550100", true, false, Details(None, None, None, Null))
  }

  /** Two organizations with the same address under different accounts. */
  const TWO_ORGS := Db(
    map[0 := Config(1, "main", "twilio", AC1, true), 1 := Config(2, "main", "twilio", AC2, true)],
    map[0 := Called(1, 0), 1 := Called(2, 1)], 2, 2)

  /** Before the second number, the second configuration, and the first number. */
  const BEFORE_SECOND := TWO_ORGS.(numbers := map[0 := Called(1, 0)], nextNumber := 1)
  const ONE_ORG := Db(map[0 := Config(1, "main", "twilio", AC1, true)], map[0 := Called(1, 0)], 1, 1)
  const ONE_CONFIG := Db(map[0 := Config(1, "main", "twilio", AC1, true)], map[], 1, 0)

  /** The provider's account field, and an address that normalizes to itself. */
  ghost predicate Twilio(w: World) {
    && w.accountField("twilio") == "account_sid"
    && w.normalize("+15550100", None) == Some(Address("+15550100", None))
  }

  lemma FirstStep(w: World)
    requires Twilio(w)
    ensures Inv(w, EMPTY) && After(w, EMPTY, FIRST) == ONE_CONFIG && Inv(w, ONE_CONFIG)
  {
    StepKeepsInv(w, EMPTY, FIRST);
  }

  lemma FirstNumberStep(w: World)
    requires Twilio(w) && Inv(w, ONE_CONFIG)
    ensures After(w, ONE_CONFIG, FIRST_NUMBER) == ONE_ORG && Inv(w, ONE_ORG)
  {
    StepKeepsInv(w, ONE_CONFIG, FIRST_NUMBER);
  }

  lemma SecondStep(w: World)
    requires Twilio(w) && Inv(w, ONE_ORG)
    ensures After(w, ONE_ORG, SECOND) == BEFORE_SECOND && Inv(w, BEFORE_SECOND)
  {
    StepKeepsInv(w, ONE_ORG, SECOND);
  }

  lemma LastStep(w: World)
    requires Twilio(w) && Inv(w, BEFORE_SECOND)
    ensures After(w, BEFORE_SECOND, SECOND_NUMBER) == TWO_ORGS && Inv(w, TWO_ORGS)
  {
    assert |"AC1"| == 3 && "AC1"[2] != "AC2"[2];
    StepKeepsInv(w, BEFORE_SECOND, SECOND_NUMBER);
  }

  lemma BothMatch(w: World)
    requires Twilio(w)
    ensures var edited := EditCredentials(TWO_ORGS, 1, AC1);
            && Valid(edited)
            && IsRoute(w, edited, Key("twilio", "AC1", "+15550100"), None, 0)
            && IsRoute(w, edited, Key("twilio", "AC1", "+15550100"), None, 1)
  {
  }

  /** Giving the second organization the first one's account makes the called number match both. */
  lemma EditCanBreakRouting(w: World)
    requires Twilio(w)
    ensures Inv(w, EMPTY) && Run(w, EMPTY, [FIRST, FIRST_NUMBER, SECOND, SECOND_NUMBER]) == TWO_ORGS
    ensures var edited := EditCredentials(TWO_ORGS, 1, AC1);
            && Valid(edited)
            && IsRoute(w, edited, Key("twilio", "AC1", "+15550100"), None, 0)
            && IsRoute(w, edited, Key("twilio", "AC1", "+15550100"), None, 1)
  {
    FirstStep(w);
    FirstNumberStep(w);
    SecondStep(w);
    LastStep(w);
    BothMatch(w);
    RunHead(w, EMPTY, FIRST, [FIRST_NUMBER, SECOND, SECOND_NUMBER]);
    RunHead(w, ONE_CONFIG, FIRST_NUMBER, [SECOND, SECOND_NUMBER]);
    RunHead(w, ONE_ORG, SECOND, [SECOND_NUMBER]);
    RunHead(w, BEFORE_SECOND, SECOND_NUMBER, []);
  }

  lemma RunHead(w: World, db: Db, op: Op, rest: seq<Op>)
    requires Inv(w, db)
    ensures Inv(w, After(w, db, op)) && Run(w, db, [op] + rest) == Run(w, After(w, db, op), rest)
  {
    StepKeepsInv(w, db, op);
    assert ([op] + rest)[1..] == rest;
  }

  // ---------------------------------------------------------------------------
  // The client
  // ---------------------------------------------------------------------------

  lemma StepKeeps(w: World, db: Db, op: Op)
    requires Stored(db) && OneDefault(db)
    ensures Stored(After(w, db, op)) && (RoutesUnique(w, db) ==> RoutesUnique(w, After(w, db, op)))
    ensures OneDefault(After(w, db, op))
  {
    StepKeepsInv(w, db, op);
    StepKeepsOne(w, db, op);
  }

  lemma EditKeeps(w: World, db: Db, config: nat, organization: nat, name: Option<string>,
                  credentials: Option<map<string, string>>)
    requires Stored(db) && OneDefault(db) && Edited(db, config, organization, name, credentials).Ok?
    ensures var db' := Edited(db, config, organization, name, credentials).value;
            && Stored(db') && OneDefault(db')
            && (RoutesUnique(w, db) ==>
                  (RoutesUnique(w, db')
                   <==> credentials.None? || !exists n, m :: AccountClash(w, db, config, credentials.value, n, m)))
  {
    var db' := Edited(db, config, organization, name, credentials).value;
    FewerMarksKeep(db, db');
    if credentials.None? {
      FewerRowsKeep(w, db, db');
    } else if RoutesUnique(w, db) {
      EditedExactlyWhen(w, db, config, name, credentials.value);
    }
  }

  class TelephonyClient {
    var db: Db
    const world: World

    ghost predicate Holds()
      reads this
    {
      Stored(db) && OneDefault(db)
    }

    /** Inbound dispatch can tell all numbers apart. */
    ghost predicate Unique()
      requires Holds()
      reads this
    {
      RoutesUnique(world, db)
    }

    constructor (w: World)
      ensures world == w && db == EMPTY && Holds() && Unique()
    {
      world := w;
      db := EMPTY;
    }

    method CreateConfiguration(organization: nat, name: string, provider: string, credentials: map<string, string>,
                               outbound: bool)
      returns (r: Result<nat, Failure>)
      requires Holds()
      modifies this
      ensures Holds() && (old(Unique()) ==> Unique())
      ensures r == if NameTaken(old(db), organization, name, None) then Err(NameConflict) else Ok(old(db.nextConfig))
      ensures db == After(world, old(db), CreateConfig(organization, name, provider, credentials, outbound))
    {
      StepKeeps(world, db, CreateConfig(organization, name, provider, credentials, outbound));
      var mark, configs := outbound, db.configs;
      if !HasConfigs(db, organization) {
        mark := true;
      } else if outbound {
        configs := OutboundCleared(configs, organization);
      }
      assert !HasConfigs(db, organization) ==> OutboundCleared(db.configs, organization) == db.configs;
      if NameTaken(db, organization, name, None) {
        return Err(NameConflict);
      }
      db := db.(configs := configs[db.nextConfig := Config(organization, name, provider, credentials, mark)],
                nextConfig := db.nextConfig + 1);
      return Ok(db.nextConfig - 1);
    }

    /**
     Name, credentials or both.  Credentials are not checked: where they are given, routes stay unique exactly
     when no other configuration of the provider routes the new account to one of the addresses.
     */
    method UpdateConfiguration(config: nat, organization: nat, name: Option<string>,
                               credentials: Option<map<string, string>>) returns (r: Result<bool, Failure>)
      requires Holds()
      modifies this
      ensures Holds()
      ensures var after := Edited(old(db), config, organization, name, credentials);
              && db == (if after.Ok? then after.value else old(db))
              && r == (if after == Err(NotFound) then Ok(false) else if after.Err? then Err(after.error) else Ok(true))
      ensures r == Ok(true) && old(Unique()) ==>
                (Unique() <==> credentials.None?
                               || !exists n, m :: AccountClash(world, old(db), config, credentials.value, n, m))
    {
      if !ConfigOf(db, config, organization) {
        return Ok(false);
      }
      var row := db.configs[config];
      if name.Some? { row := row.(name := name.value); }
      if credentials.Some? { row := row.(credentials := credentials.value); }
      if name.Some? && NameTaken(db, organization, name.value, Some(config)) {
        return Err(NameConflict);
      }
      EditKeeps(world, db, config, organization, name, credentials);
      db := db.(configs := db.configs[config := row]);
      return Ok(true);
    }

    method SetDefaultConfiguration(config: nat, organization: nat) returns (found: bool)
      requires Holds()
      modifies this
      ensures Holds() && (old(Unique()) ==> Unique())
      ensures found <==> ConfigOf(old(db), config, organization)
      ensures db == After(world, old(db), SetOutbound(config, organization))
    {
      StepKeeps(world, db, SetOutbound(config, organization));
      if !ConfigOf(db, config, organization) {
        return false;
      }
      var configs := OutboundCleared(db.configs, organization);
      db := db.(configs := configs[config := configs[config].(outbound := true)]);
      return true;
    }

    method DeleteConfiguration(config: nat, organization: nat, campaignsRefer: bool) returns (r: Result<bool, Failure>)
      requires Holds()
      modifies this
      ensures Holds() && (old(Unique()) ==> Unique())
      ensures r == if !ConfigOf(old(db), config, organization) then Ok(false)
                   else if campaignsRefer then Err(InUse) else Ok(true)
      ensures db == After(world, old(db), DeleteConfig(config, organization, campaignsRefer))
    {
      StepKeeps(world, db, DeleteConfig(config, organization, campaignsRefer));
      if !ConfigOf(db, config, organization) {
        return Ok(false);
      }
      if campaignsRefer {
        return Err(InUse);
      }
      db := WithoutConfig(db, config);
      return Ok(true);
    }

    method FindInboundRoute(provider: string, account: string, toNumber: string, country: Option<string>,
                            organization: Option<nat>) returns (r: Result<Option<(nat, nat)>, Failure>)
      requires Holds()
      ensures |provider| == 0 || |world.accountField(provider)| == 0 || |account| == 0 || |toNumber| == 0 ==>
                r == Ok(None)
      ensures r.Err? <==> |provider| > 0 && |world.accountField(provider)| > 0 && |account| > 0 && |toNumber| > 0
                          && world.normalize(toNumber, country).None?
      ensures |provider| > 0 && |world.accountField(provider)| > 0 && |account| > 0 && |toNumber| > 0 && r.Ok?
              ==> var key := Key(provider, account, world.normalize(toNumber, country).value.canonical);
                  && (r.value.Some? <==> exists n :: IsRoute(world, db, key, organization, n))
                  && (r.value.Some? ==> IsRoute(world, db, key, organization, r.value.value.1)
                                        && r.value.value.0 == db.numbers[r.value.value.1].config)
                  && (Unique() ==> forall n :: IsRoute(world, db, key, organization, n)
                                     ==> n in db.numbers && r.value == Some((db.numbers[n].config, n)))
    {
      var field := world.accountField(provider);
      if provider == "" || field == "" || account == "" || toNumber == "" {
        return Ok(None);
      }
      var address := world.normalize(toNumber, country);
      if address.None? {
        return Err(InvalidAddress);
      }
      var canonical := address.value.canonical;
      var rows := set n | n in db.numbers && db.numbers[n].config in db.configs
                          && db.configs[db.numbers[n].config].provider == provider
                          && field in db.configs[db.numbers[n].config].credentials
                          && db.configs[db.numbers[n].config].credentials[field] == account
                          && db.numbers[n].canonical == canonical
                          && db.numbers[n].active
                          && (organization.Some? ==>
                                db.configs[db.numbers[n].config].organization == organization.value);
      assert forall n :: n in rows <==> IsRoute(world, db, Key(provider, account, canonical), organization, n);
      if rows == {} {
        return Ok(None);
      }
      var first :| first in rows;
      return Ok(Some((db.numbers[first].config, first)));
    }

    method FindInboundRoutingConflict(provider: string, account: string, canonical: string)
      returns (conflict: Option<(nat, nat)>)
      requires Valid(db)
      ensures conflict.Some? <==> && provider != "" && world.accountField(provider) != "" && account != ""
                                  && Matching(world, db, Key(provider, account, canonical)) != {}
      ensures conflict.Some? ==> conflict.value.1 in Matching(world, db, Key(provider, account, canonical))
                                 && conflict.value.0 == db.numbers[conflict.value.1].config
    {
      var field := world.accountField(provider);
      if provider == "" || field == "" || account == "" {
        return None;
      }
      var rows := set n | n in db.numbers && db.numbers[n].config in db.configs
                          && db.configs[db.numbers[n].config].provider == provider
                          && field in db.configs[db.numbers[n].config].credentials
                          && db.configs[db.numbers[n].config].credentials[field] == account
                          && db.numbers[n].canonical == canonical;
      assert rows == Matching(world, db, Key(provider, account, canonical));
      if rows == {} {
        return None;
      }
      var first :| first in rows;
      return Some((db.numbers[first].config, first));
    }

    /** The route with `create_phone_number`; `workflowFound` and `owned` answer the two checks made elsewhere. */
    method CreatePhoneNumber(config: nat, organization: nat, form: NewNumber, workflowFound: bool, owned: bool)
      returns (r: Result<nat, Failure>)
      requires Holds()
      modifies this
      ensures Holds() && (old(Unique()) ==> Unique())
      ensures var step := Apply(world, old(db), CreateNumber(config, organization, form, workflowFound, owned));
              && r == (if step.Ok? then Ok(old(db.nextNumber)) else Err(step.error))
              && db == After(world, old(db), CreateNumber(config, organization, form, workflowFound, owned))
    {
      StepKeeps(world, db, CreateNumber(config, organization, form, workflowFound, owned));
      if config !in db.configs || db.configs[config].organization != organization {
        return Err(NotFound);
      }
      if form.details.workflow.Some? && !workflowFound {
        return Err(NotFound);
      }
      if !owned {
        return Err(NotOwned);
      }
      var cfg := db.configs[config];
      var field := world.accountField(cfg.provider);
      var address := world.normalize(form.address, form.details.country);
      if field != "" && field in cfg.credentials && cfg.credentials[field] != "" {
        if address.None? {
          return Err(InvalidAddress);
        }
        var conflict := FindInboundRoutingConflict(cfg.provider, cfg.credentials[field], address.value.canonical);
        if conflict.Some? {
          return Err(RoutingConflict);
        }
      }
      assert address.Some? ==> !Conflict(world, db, config, address.value.canonical);
      if address.None? {
        return Err(InvalidAddress);
      }
      if AddressTaken(db, organization, address.value.canonical) {
        return Err(AddressConflict);
      }
      db := AddNumber(db, RowOf(organization, config, form, address.value));
      return Ok(db.nextNumber - 1);
    }

    /** Writes each given field. */
    static method WriteFields(stored: Number, change: NumberChange) returns (row: Number)
      ensures row == Updated(stored, change)
    {
      var d := stored.details;
      if change.tag.Some? { d := d.(tag := change.tag); }
      if change.workflow.Some? {
        d := d.(workflow := change.workflow);
      } else if change.clearWorkflow {
        d := d.(workflow := None);
      }
      if change.country.Some? { d := d.(country := change.country); }
      if change.metadata.Some? { d := d.(metadata := change.metadata.value); }
      row := stored.(details := d);
      if change.active.Some? { row := row.(active := change.active.value); }
    }

    method UpdatePhoneNumber(number: nat, config: nat, change: NumberChange) returns (found: bool)
      requires Holds()
      modifies this
      ensures Holds() && (old(Unique()) ==> Unique())
      ensures found <==> number in old(db.numbers) && old(db.numbers)[number].config == config
      ensures db == After(world, old(db), UpdateNumber(number, config, change))
    {
      StepKeeps(world, db, UpdateNumber(number, config, change));
      if number !in db.numbers || db.numbers[number].config != config {
        return false;
      }
      var row := WriteFields(db.numbers[number], change);
      db := db.(numbers := db.numbers[number := row]);
      return true;
    }

    method SetDefaultCaller(number: nat, config: nat) returns (found: bool)
      requires Holds()
      modifies this
      ensures Holds() && (old(Unique()) ==> Unique())
      ensures found <==> number in old(db.numbers) && old(db.numbers)[number].config == config
      ensures db == After(world, old(db), SetCaller(number, config))
    {
      StepKeeps(world, db, SetCaller(number, config));
      if number !in db.numbers || db.numbers[number].config != config {
        return false;
      }
      var numbers := CallerCleared(db.numbers, config);
      db := db.(numbers := numbers[number := numbers[number].(caller := true)]);
      return true;
    }

    method DeletePhoneNumber(number: nat, config: nat) returns (deleted: bool)
      requires Holds()
      modifies this
      ensures Holds() && (old(Unique()) ==> Unique())
      ensures deleted <==> number in old(db.numbers) && old(db.numbers)[number].config == config
      ensures db == After(world, old(db), DeleteNumber(number, config))
    {
      StepKeeps(world, db, DeleteNumber(number, config));
      if number !in db.numbers || db.numbers[number].config != config {
        return false;
      }
      db := db.(numbers := db.numbers - {number});
      return true;
    }
  }
}
