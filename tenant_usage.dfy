/** The export run of the script: `query_redshift` over the resolved periods, the flow of
    `main`, the re-prompt test of `configure` and the archive passphrase. */
module TenantUsage {
  import opened Outcomes
  import opened Decimal
  import opened Calendar
  import opened TimestampFormat
  import opened ExportFiles
  import opened BillingPeriods

  /** The two fixed usage queries: raw rows in verbose mode, rows grouped and counted otherwise. */
  datatype Query = RawRows | Aggregated

  function QueryFor(verbose: bool): (q: Query)
    ensures q == RawRows <==> verbose
  {
    if verbose then RawRows else Aggregated
  }

  /** One pass of `query_redshift`: the query run for one period, and the file its rows go to
      after the header. */
  datatype Export = Export(index: int, path: string, query: Query, period: Period, header: seq<string>)

  /** The export `query_redshift` makes for the dict entry `index`: the query the verbosity
      selects run over that entry's bounds, written below the header to
      `<location>/<index>-<tenant>.csv`. */
  function ExportOf(location: string, tenant: string, verbose: bool, timestamps: Timestamps, index: int): Export
    requires index in timestamps.entries
  {
    Export(index, CsvPath(location, tenant, index), QueryFor(verbose), timestamps.entries[index], Header(verbose))
  }

  /** `query_redshift`: one export per dict entry, in the dict's insertion order. No two
      periods share a file. */
  method QueryRedshift(location: string, tenant: string, verbose: bool, timestamps: Timestamps)
    returns (exports: seq<Export>)
    requires WellFormed(timestamps)
    ensures |exports| == |timestamps.order|
    ensures forall j :: 0 <= j < |exports| ==>
      exports[j] == ExportOf(location, tenant, verbose, timestamps, timestamps.order[j])
    ensures forall i, j :: 0 <= i < j < |exports| ==> exports[i].path != exports[j].path
    ensures Placed(exports, location, tenant, verbose)
  {
    exports := [];
    for i := 0 to |timestamps.order|
      invariant |exports| == i
      invariant forall j :: 0 <= j < i ==>
        exports[j] == ExportOf(location, tenant, verbose, timestamps, timestamps.order[j])
    {
      exports := exports + [ExportOf(location, tenant, verbose, timestamps, timestamps.order[i])];
    }
    DistinctPaths(location, tenant, verbose, timestamps, exports);
  }

  /** Exports of distinct dict keys go to distinct files. */
  lemma DistinctPaths(location: string, tenant: string, verbose: bool, timestamps: Timestamps,
                      exports: seq<Export>)
    requires WellFormed(timestamps) && |exports| == |timestamps.order|
    requires forall j :: 0 <= j < |exports| ==>
      exports[j] == ExportOf(location, tenant, verbose, timestamps, timestamps.order[j])
    ensures forall i, j :: 0 <= i < j < |exports| ==> exports[i].path != exports[j].path
  {
    forall i, j | 0 <= i < j < |exports| ensures exports[i].path != exports[j].path {
      if exports[i].path == exports[j].path {
        CsvPathInjective(location, tenant, timestamps.order[i], timestamps.order[j]);
      }
    }
  }

  /** The options of an export run (the `configure` command is separate). */
  datatype Arguments = Arguments(
    tenant: string,                  // -t
    location: string,                // -l, defaulting to ~/stormpath-tenant-usage
    billingPeriods: Option<string>,  // -b
    startTimestamp: Option<string>,  // -y
    endTimestamp: Option<string>,    // -z
    email: Option<string>,           // -e
    sms: Option<string>,             // -s
    verbose: bool)                   // -v

  /** What a run learns from outside: whether the credential file exists, the home directory
      `expanduser` resolves, and the row of the billing-cycle lookup, if any. */
  datatype Environment = Environment(credentialsFound: bool, home: string,
                                     cycle: Option<(DateTime, DateTime)>)

  /** The exports written, and whether the archive is then mailed and its key texted. */
  datatype Plan = Plan(exports: seq<Export>, notify: bool)

  /** Both -y and -z given: the explicit range replaces the derived periods. */
  predicate ExplicitRange(args: Arguments) {
    args.startTimestamp.Some? && args.endTimestamp.Some?
  }

  /** Every export goes to `<location>/<index>-<tenant>.csv` and carries the header and the
      query the verbosity selects. */
  predicate Placed(exports: seq<Export>, location: string, tenant: string, verbose: bool) {
    forall j :: 0 <= j < |exports| ==>
      && exports[j].path == CsvPath(location, tenant, exports[j].index)
      && exports[j].header == Header(verbose)
      && exports[j].query == QueryFor(verbose)
  }

  /** The exports are those of periods n, n - 1, ..., 1 of the cycle (start, end), in that
      order; there are none when n <= 0. */
  predicate CountsDown(exports: seq<Export>, start: DateTime, end: DateTime, n: int)
    requires Valid(start) && Valid(end)
  {
    && |exports| == (if n > 0 then n else 0)
    && forall j :: 0 <= j < |exports| ==>
         exports[j].index == n - j && IsPeriod(start, end, n - j, exports[j].period)
  }

  /** The branch of `main` that picks the periods and exports them to `location`: an explicit
      range gives its single period; otherwise `get_timestamps` looks up the tenant's current
      cycle, which must exist, derives n periods from it and hands them to `query_redshift`. */
  method ExportPeriods(args: Arguments, env: Environment, n: int, location: string)
    returns (r: Result<seq<Export>>)
    requires env.cycle.Some? ==> Valid(env.cycle.value.0) && Valid(env.cycle.value.1)
    ensures r.Ok? ==> Placed(r.value, location, args.tenant, args.verbose)
    ensures ExplicitRange(args) ==>
      var explicit := ExplicitTimestamps(args.startTimestamp.value, args.endTimestamp.value);
      && (r.Ok? <==> explicit.Ok?)
      && (r.Err? ==> r.error == InvalidTimestamp)
      && (r.Ok? ==> && |r.value| == 1 && r.value[0].index == 1
                    && r.value[0].period == explicit.value.entries[1])
    ensures !ExplicitRange(args) && env.cycle.None? ==> r == Err(TenantNotFound)
    ensures !ExplicitRange(args) && env.cycle.Some? ==>
      && (r.Ok? <==> Resolvable(env.cycle.value.0, n))
      && (r.Err? ==> r.error == DateOutOfRange)
      && (r.Ok? ==> CountsDown(r.value, env.cycle.value.0, env.cycle.value.1, n))
  {
    if ExplicitRange(args) {
      var timestamps := ExplicitTimestamps(args.startTimestamp.value, args.endTimestamp.value);
      if timestamps.Err? {
        return Err(timestamps.error);
      }
      var exports := QueryRedshift(location, args.tenant, args.verbose, timestamps.value);
      return Ok(exports);
    }
    if env.cycle.None? {
      return Err(TenantNotFound);
    }
    var (start, end) := env.cycle.value;
    var timestamps := GetTimestamps(start, end, n);
    if timestamps.Err? {
      return Err(timestamps.error);
    }
    var exports := QueryRedshift(location, args.tenant, args.verbose, timestamps.value);
    DerivedExports(start, end, n, location, args.tenant, args.verbose, timestamps.value, exports);
    return Ok(exports);
  }

  /** `main` for an export run. The constructor fails without credentials, then on a count
      int() rejects; an explicit range gives one period keyed 1 whatever the count; otherwise
      the tenant's current cycle must exist and its n periods must stay in range. Every export's
      path string is its CSV name joined to the tenant directory `set_location` returns, and it
      has the header the verbosity selects. */
  method Run(args: Arguments, env: Environment) returns (r: Result<Plan>)
    requires env.cycle.Some? ==> Valid(env.cycle.value.0) && Valid(env.cycle.value.1)
    ensures !env.credentialsFound ==> r == Err(MissingCredentials)
    ensures env.credentialsFound && SetBillingPeriods(args.billingPeriods).Err? ==> r == Err(InvalidNumber)
    ensures r.Ok? ==> r.value.notify == (args.email.Some? && args.sms.Some?)
    ensures r.Ok? ==> Placed(r.value.exports, SetLocation(env.home, args.location, args.tenant),
                             args.tenant, args.verbose)
    ensures env.credentialsFound && SetBillingPeriods(args.billingPeriods).Ok? && ExplicitRange(args) ==>
      var explicit := ExplicitTimestamps(args.startTimestamp.value, args.endTimestamp.value);
      && (r.Ok? <==> explicit.Ok?)
      && (r.Err? ==> r.error == InvalidTimestamp)
      && (r.Ok? ==> && |r.value.exports| == 1 && r.value.exports[0].index == 1
                    && r.value.exports[0].period == explicit.value.entries[1])
    ensures (env.credentialsFound && SetBillingPeriods(args.billingPeriods).Ok? && !ExplicitRange(args)
             && env.cycle.None?) ==> r == Err(TenantNotFound)
    ensures env.credentialsFound && SetBillingPeriods(args.billingPeriods).Ok? && !ExplicitRange(args)
            && env.cycle.Some? ==>
      var n := SetBillingPeriods(args.billingPeriods).value;
      && (r.Ok? <==> Resolvable(env.cycle.value.0, n))
      && (r.Err? ==> r.error == DateOutOfRange)
      && (r.Ok? ==> CountsDown(r.value.exports, env.cycle.value.0, env.cycle.value.1, n))
  {
    if !env.credentialsFound {
      return Err(MissingCredentials);
    }
    var count := SetBillingPeriods(args.billingPeriods);
    if count.Err? {
      return Err(count.error);
    }
    var location := SetLocation(env.home, args.location, args.tenant);
    var exports := ExportPeriods(args, env, count.value, location);
    if exports.Err? {
      return Err(exports.error);
    }
    return Ok(Plan(exports.value, args.email.Some? && args.sms.Some?));
  }

  /** The exports of the derived periods count down from n, each with its period. */
  lemma DerivedExports(start: DateTime, end: DateTime, n: int, location: string, tenant: string,
                       verbose: bool, timestamps: Timestamps, exports: seq<Export>)
    requires Valid(start) && Valid(end)
    requires WellFormed(timestamps) && timestamps.order == CountDown(n)
    requires forall k :: k in timestamps.entries <==> 1 <= k <= n
    requires forall k :: 1 <= k <= n ==> IsPeriod(start, end, k, timestamps.entries[k])
    requires |exports| == |timestamps.order|
    requires forall j :: 0 <= j < |exports| ==>
      exports[j] == ExportOf(location, tenant, verbose, timestamps, timestamps.order[j])
    ensures CountsDown(exports, start, end, n)
  {
    forall j | 0 <= j < |exports|
      ensures exports[j].index == n - j && IsPeriod(start, end, n - j, exports[j].period)
    {
      assert timestamps.order[j] == n - j;
      assert exports[j].period == timestamps.entries[n - j];
    }
  }

  /** The five answers `configure` asks for. */
  datatype Credentials = Credentials(database: string, host: string, port: string,
                                     username: string, password: string)

  function StripAnswers(c: Credentials): Credentials {
    Credentials(Strip(c.database), Strip(c.host), Strip(c.port), Strip(c.username), Strip(c.password))
  }

  /** The re-prompt test of `configure`: it asks again only when every answer is empty. */
  predicate NeedsReprompt(c: Credentials) {
    !(c.database != "" || c.host != "" || c.port != "" || c.username != "" || c.password != "")
  }

  /** A single non-empty answer is enough to go on to the connection attempt. */
  lemma RepromptOnlyWhenAllEmpty(c: Credentials)
    ensures NeedsReprompt(c) <==> c == Credentials("", "", "", "", "")
    ensures !NeedsReprompt(Credentials("", "", "", "", "secret"))
  {
  }

  /** Answers `configure` stores: not all empty, and the connection with them succeeds. */
  predicate Accepted(c: Credentials, connects: Credentials -> bool) {
    !NeedsReprompt(c) && connects(c)
  }

  /** None of the first m rounds of answers was accepted. */
  predicate RejectedAll(answers: seq<Credentials>, connects: Credentials -> bool, m: int)
    requires m <= |answers|
  {
    forall j :: 0 <= j < m ==> !Accepted(StripAnswers(answers[j]), connects)
  }

  /** One round of `configure`: the five answers are stripped; when all are empty it asks
      again, otherwise it tries to connect with them and keeps them on success. */
  method ConfigureRound(answer: Credentials, connects: Credentials -> bool)
    returns (saved: Option<Credentials>)
    ensures saved.Some? <==> Accepted(StripAnswers(answer), connects)
    ensures saved.Some? ==> saved.value == StripAnswers(answer)
  {
    var c := StripAnswers(answer);
    if NeedsReprompt(c) {
      return None;
    }
    if connects(c) {
      return Some(c);
    }
    return None;
  }

  /** The `configure` loop over a finite run of answers, one round per answer until a round
      is accepted. `connects` stands for the live connection attempt; running out of answers
      stops without saving. What is saved is the first accepted round, and `rounds` is the
      number of rounds read. */
  method Configure(answers: seq<Credentials>, connects: Credentials -> bool)
    returns (saved: Option<Credentials>, rounds: nat)
    ensures rounds <= |answers|
    ensures saved.Some? ==> 1 <= rounds && saved.value == StripAnswers(answers[rounds - 1])
    ensures saved.Some? ==> Accepted(saved.value, connects)
    ensures saved.None? ==> rounds == |answers|
    ensures RejectedAll(answers, connects, if saved.Some? then rounds - 1 else rounds)
  {
    rounds := 0;
    while rounds < |answers|
      invariant rounds <= |answers|
      invariant RejectedAll(answers, connects, rounds)
    {
      saved := ConfigureRound(answers[rounds], connects);
      rounds := rounds + 1;
      if saved.Some? {
        return;
      }
    }
    saved := None;
  }

  predicate IsAlphanumeric(c: char) {
    'a' <= c <= 'z' || 'A' <= c <= 'Z' || '0' <= c <= '9'
  }

  /** The position of an ASCII letter or digit in `ascii_letters + digits`. */
  function AlphabetIndex(c: char): (i: nat)
    requires IsAlphanumeric(c)
    ensures i < 62
  {
    if 'a' <= c <= 'z' then c as int - 'a' as int
    else if 'A' <= c <= 'Z' then 26 + (c as int - 'A' as int)
    else 52 + (c as int - '0' as int)
  }

  /** The i-th symbol of `ascii_letters + digits`: a..z, then A..Z, then 0..9. */
  function AlphabetChar(i: nat): (c: char)
    requires i < 62
    ensures IsAlphanumeric(c) && AlphabetIndex(c) == i
  {
    if i < 26 then ('a' as int + i) as char
    else if i < 52 then ('A' as int + (i - 26)) as char
    else ('0' as int + (i - 52)) as char
  }

  const Alphabet: string := seq(62, i requires 0 <= i < 62 => AlphabetChar(i))

  /** The archive passphrase: twelve symbols, each chosen from the 62-symbol alphabet by the
      system random source, given here as the twelve indices it draws. Distinct draws give
      distinct passphrases, so none of the source's choice is lost. */
  function Passphrase(draws: seq<nat>): (key: string)
    requires |draws| == 12 && forall i :: 0 <= i < 12 ==> draws[i] < |Alphabet|
    ensures |key| == 12
    ensures forall i :: 0 <= i < 12 ==> IsAlphanumeric(key[i]) && AlphabetIndex(key[i]) == draws[i]
  {
    assert |Alphabet| == 62 && forall i :: 0 <= i < 62 ==> Alphabet[i] == AlphabetChar(i);
    seq(12, i requires 0 <= i < 12 => Alphabet[draws[i]])
  }

  /** The mapping from draws to passphrases is one-to-one. */
  lemma PassphraseInjective(a: seq<nat>, b: seq<nat>)
    requires |a| == 12 && forall i :: 0 <= i < 12 ==> a[i] < |Alphabet|
    requires |b| == 12 && forall i :: 0 <= i < 12 ==> b[i] < |Alphabet|
    requires Passphrase(a) == Passphrase(b)
    ensures a == b
  {
    forall i | 0 <= i < 12 ensures a[i] == b[i] {
      assert AlphabetIndex(Passphrase(a)[i]) == AlphabetIndex(Passphrase(b)[i]);
    }
  }
}
