/** Where each billing period's export goes and the header row it starts with. */
module ExportFiles {
  import opened Decimal

  /** What `os.path.join` puts between a directory and a relative name. */
  function Separator(a: string): string {
    if a == [] || a[|a| - 1] == '/' then "" else "/"
  }

  /** `os.path.join(a, b)` on POSIX: an absolute b replaces a; otherwise the result starts
      with a and ends with b, with exactly one slash between them when a is not empty (one is
      added only when a does not already end in one). */
  function PathJoin(a: string, b: string): (r: string)
    ensures |b| > 0 && b[0] == '/' ==> r == b
    ensures (|b| == 0 || b[0] != '/') ==> |a| <= |r| - |b| <= |a| + 1 && r[..|a|] == a && r[|r| - |b|..] == b
    ensures (|b| == 0 || b[0] != '/') && a != [] ==> r[|r| - |b| - 1] == '/'
    ensures (|b| == 0 || b[0] != '/') && |r| - |b| == |a| + 1 ==> a != [] && a[|a| - 1] != '/'
  {
    if |b| > 0 && b[0] == '/' then b else a + Separator(a) + b
  }

  /** The default of -l, resolved by `expanduser` against the home directory. */
  const DefaultLocation := "~/stormpath-tenant-usage"

  /** The directory `set_location` returns (its directory creation is not modelled): the
      default location becomes `<home>/stormpath-tenant-usage/`, any other location is kept,
      and `/<tenant>` is appended. */
  function SetLocation(home: string, location: string, tenant: string): (r: string)
  {
    var base := if location == DefaultLocation then home + "/stormpath-tenant-usage/" else location;
    base + "/" + tenant
  }

  /** `'%d-%s.csv' % (index, tenant)`: the index in decimal, then the tenant's suffix. */
  function CsvName(index: int, tenant: string): (r: string)
  {
    IntToString(index) + NameSuffix(tenant)
  }

  function NameSuffix(tenant: string): string {
    "-" + tenant + ".csv"
  }

  /** The file period `index` is exported to. */
  function CsvPath(location: string, tenant: string, index: int): (r: string)
  {
    PathJoin(location, CsvName(index, tenant))
  }

  /** An export name never starts with a slash, so it is always joined below the directory. */
  lemma CsvNameRelative(index: int, tenant: string)
    ensures CsvName(index, tenant)[0] != '/'
  {
    var d := IntToString(index);
    assert CsvName(index, tenant)[0] == d[0];
    IntToStringDigits(index);
    if index >= 0 {
      assert IsDigit(d[0]);
    }
  }

  /** Different periods never share an export file. */
  lemma {:induction false} CsvPathInjective(location: string, tenant: string, i: int, j: int)
    requires CsvPath(location, tenant, i) == CsvPath(location, tenant, j)
    ensures i == j
  {
    var ni, nj := CsvName(i, tenant), CsvName(j, tenant);
    CsvNameRelative(i, tenant);
    CsvNameRelative(j, tenant);
    var dir := location + Separator(location);
    assert dir + ni == dir + nj;
    assert ni == (dir + ni)[|dir|..] == nj;
    var suffix := NameSuffix(tenant);
    assert IntToString(i) == ni[..|ni| - |suffix|] == IntToString(j);
    IntToStringInjective(i, j);
  }

  /** For a non-empty tenant name that does not end in a slash, the path string of an export
      is `<location>/<tenant>/<index>-<tenant>.csv` (the default location gives a doubled slash). */
  lemma CsvPathLayout(home: string, location: string, tenant: string, index: int)
    requires tenant != [] && tenant[|tenant| - 1] != '/'
    ensures CsvPath(SetLocation(home, location, tenant), tenant, index)
         == (if location == DefaultLocation then home + "/stormpath-tenant-usage/" else location)
            + "/" + tenant + "/" + CsvName(index, tenant)
  {
    var dir := SetLocation(home, location, tenant);
    assert dir[|dir| - 1] == tenant[|tenant| - 1];
    assert Separator(dir) == "/";
    CsvNameRelative(index, tenant);
  }

  /** The column names of the export header: six for raw rows (-v), seven for aggregated rows. */
  function Header(verbose: bool): seq<string>
  {
    if verbose then
      ["URL", "Method", "Status", "IP Address", "Requester API Key ID", "Timestamp (UTC)"]
    else
      ["URL", "Method", "Status", "IP Address", "Requester API Key ID",
       "Min Timestamp (UTC)", "Max Timestamp (UTC)"]
  }

  /** Both headers start with the same five key columns; raw rows add one timestamp column,
      aggregated rows the first and the last timestamp. */
  lemma HeaderColumns(verbose: bool)
    ensures |Header(verbose)| == (if verbose then 6 else 7)
    ensures Header(verbose)[..5] == ["URL", "Method", "Status", "IP Address", "Requester API Key ID"]
    ensures Header(verbose) != Header(!verbose)
  {
  }

  /** The field delimiter of the export writer. */
  const Delimiter := '|'

  /** A field the minimal-quoting writer encloses in quotes: one holding the delimiter, the
      quote character or a line-terminator character. */
  predicate NeedsQuoting(f: string) {
    exists i :: 0 <= i < |f| && Special(f[i])
  }

  predicate Special(c: char) {
    c == Delimiter || c == '"' || c == '\r' || c == '\n'
  }

  /** A quoted field: enclosing quotes, inner quotes doubled. */
  function DoubleQuotes(f: string): string {
    if f == [] then [] else (if f[0] == '"' then "\"\"" else [f[0]]) + DoubleQuotes(f[1..])
  }

  function Quote(f: string): string {
    if NeedsQuoting(f) then "\"" + DoubleQuotes(f) + "\"" else f
  }

  /** Fields separated by the delimiter. */
  function Join(fields: seq<string>): (r: string)
    decreases |fields|
  {
    if fields == [] then []
    else if |fields| == 1 then fields[0]
    else fields[0] + [Delimiter] + Join(fields[1..])
  }

  function QuoteAll(fields: seq<string>): (r: seq<string>)
    ensures |r| == |fields|
    ensures forall i :: 0 <= i < |fields| ==> r[i] == Quote(fields[i])
  {
    if fields == [] then [] else [Quote(fields[0])] + QuoteAll(fields[1..])
  }

  /** `csv.writer(f, delimiter='|').writerow(fields)` with the default dialect: minimal quoting,
      a lone empty field written as `""`, and rows ended by CR LF. */
  function WriteRow(fields: seq<string>): string {
    (if fields == [""] then "\"\"" else Join(QuoteAll(fields))) + "\r\n"
  }

  /** The length of the run before the first delimiter. */
  function FieldLength(s: string): (n: nat)
    ensures n <= |s|
    ensures forall i :: 0 <= i < n ==> s[i] != Delimiter
    ensures n < |s| ==> s[n] == Delimiter
  {
    if s == [] || s[0] == Delimiter then 0 else 1 + FieldLength(s[1..])
  }

  /** Cuts a line at every delimiter (no quote handling: the reader for unquoted rows). */
  function Split(s: string): (r: seq<string>)
    ensures |r| >= 1
    decreases |s|
  {
    var n := FieldLength(s);
    if n == |s| then [s] else [s[..n]] + Split(s[n + 1..])
  }

  predicate NoDelimiter(f: string) {
    forall i :: 0 <= i < |f| ==> f[i] != Delimiter
  }

  /** Splitting a joined row gives back its fields, when no field holds the delimiter. */
  lemma {:induction false} SplitJoin(fields: seq<string>)
    requires |fields| >= 1
    requires forall i :: 0 <= i < |fields| ==> NoDelimiter(fields[i])
    ensures Split(Join(fields)) == fields
    decreases |fields|
  {
    var f := fields[0];
    if |fields| == 1 {
      assert FieldLength(f) == |f|;
    } else {
      var rest := Join(fields[1..]);
      var s := f + [Delimiter] + rest;
      assert s[|f|] == Delimiter;
      assert FieldLength(s) == |f|;
      assert s[..|f|] == f;
      assert s[|f| + 1..] == rest;
      SplitJoin(fields[1..]);
    }
  }

  /** A field written as it is and read back as it is. */
  predicate Plain(f: string)
    ensures Plain(f) ==> !NeedsQuoting(f) && NoDelimiter(f)
  {
    forall i :: 0 <= i < |f| ==> !Special(f[i])
  }

  lemma HeaderFieldsPlain(verbose: bool)
    ensures forall i :: 0 <= i < |Header(verbose)| ==> Plain(Header(verbose)[i])
  {
    assert Plain("URL") && Plain("Method") && Plain("Status") && Plain("IP Address");
    assert Plain("Requester API Key ID");
    assert Plain("Timestamp (UTC)");
    assert Plain("Min Timestamp (UTC)") && Plain("Max Timestamp (UTC)");
  }

  /** The header row is written without quotes, so splitting the written line (less its CR LF)
      gives back the column names: six in verbose mode, seven otherwise. */
  lemma HeaderRowRoundTrip(verbose: bool)
    ensures WriteRow(Header(verbose)) == Join(Header(verbose)) + "\r\n"
    ensures Split(Join(Header(verbose))) == Header(verbose)
  {
    var h := Header(verbose);
    HeaderFieldsPlain(verbose);
    assert QuoteAll(h) == h;
    assert h != [""];
    SplitJoin(h);
  }
}
