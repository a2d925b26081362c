// The static application list the IAM server reads from a CSV file
// (iam/pkg/iamserver/application.go): the header's column names, each row's fields,
// the scope and redirect URI lists, and the lookup by application id.
module ApplicationStore {
  import opened Wrappers
  import opened AzId
  import opened Strings
  import opened ApplicationIds

  const ErrHeaderRowRequired: AzError := Msg("header row required")

  /** The attributes of one application (iam.ApplicationData). */
  datatype ApplicationData = ApplicationData(
    displayName: string, secret: string, platformType: string,
    requiredScopes: seq<string>, oauth2RedirectURI: seq<string>)

  datatype Application = Application(id: ApplicationID, attributes: ApplicationData)

  // ---------------------------------------------------------------------------------
  // The header row
  // ---------------------------------------------------------------------------------

  /** The index of the last column named `name`, or -1 when there is none. */
  function LastIndexOf(header: seq<string>, name: string): (r: int)
    ensures -1 <= r < |header|
    ensures r == -1 <==> name !in header
    ensures r >= 0 ==> header[r] == name && forall j :: r < j < |header| ==> header[j] != name
  {
    if header == [] then -1
    else if header[|header| - 1] == name then |header| - 1
    else LastIndexOf(header[..|header| - 1], name)
  }

  /** The column of each attribute; -1 for one the header does not name. */
  datatype Columns = Columns(displayName: int, secret: int, platformType: int, requiredScopes: int, oauth2RedirectURI: int)

  function ColumnsOf(header: seq<string>): Columns
  {
    Columns(
      LastIndexOf(header, "display_name"), LastIndexOf(header, "secret"), LastIndexOf(header, "platform_type"),
      LastIndexOf(header, "required_scopes"), LastIndexOf(header, "oauth2_redirect_uri"))
  }

  /** The loop over the header row: a later column with the same name takes over. */
  method HeaderColumns(header: seq<string>) returns (c: Columns)
    ensures c == ColumnsOf(header)
  {
    c := Columns(-1, -1, -1, -1, -1);
    for idx := 0 to |header|
      invariant c == ColumnsOf(header[..idx])
    {
      var key := header[idx];
      ColumnsStep(header, idx);
      if key == "display_name" {
        c := c.(displayName := idx);
      } else if key == "secret" {
        c := c.(secret := idx);
      } else if key == "platform_type" {
        c := c.(platformType := idx);
      } else if key == "required_scopes" {
        c := c.(requiredScopes := idx);
      } else if key == "oauth2_redirect_uri" {
        c := c.(oauth2RedirectURI := idx);
      }
    }
    assert header[..|header|] == header;
  }

  /** One more header column: a name it matches now points at it. */
  lemma ColumnsStep(header: seq<string>, idx: nat)
    requires idx < |header|
    ensures var c := ColumnsOf(header[..idx]);
      ColumnsOf(header[..idx + 1]) == Columns(
        if header[idx] == "display_name" then idx else c.displayName,
        if header[idx] == "secret" then idx else c.secret,
        if header[idx] == "platform_type" then idx else c.platformType,
        if header[idx] == "required_scopes" then idx else c.requiredScopes,
        if header[idx] == "oauth2_redirect_uri" then idx else c.oauth2RedirectURI)
  {
    assert header[..idx + 1][..idx] == header[..idx];
  }

  /** indexexdValue: the field at `idx`, or "" when `idx` is negative or past the row's end. */
  function IndexedValue(ls: seq<string>, idx: int): (r: string)
  {
    if idx < 0 then ""
    else if idx >= |ls| then ""
    else ls[idx]
  }

  /** A row's field under a named column, and "" for a column the header does not name or a row too short for it. */
  lemma FieldUnderColumn(header: seq<string>, row: seq<string>, name: string)
    ensures name !in header ==> IndexedValue(row, LastIndexOf(header, name)) == ""
    ensures name in header && |row| == |header| ==>
      var i := LastIndexOf(header, name);
      header[i] == name && IndexedValue(row, i) == row[i]
    ensures name in header && LastIndexOf(header, name) >= |row| ==> IndexedValue(row, LastIndexOf(header, name)) == ""
  {
  }

  // ---------------------------------------------------------------------------------
  // Scope and redirect URI lists
  // ---------------------------------------------------------------------------------

  /** The trimmed parts that are not empty, in order. */
  function TrimmedPieces(parts: seq<string>): (r: seq<string>)
    ensures |r| <= |parts|
  {
    if parts == [] then []
    else
      var v := TrimSpace(parts[|parts| - 1]);
      TrimmedPieces(parts[..|parts| - 1]) + (if v != "" then [v] else [])
  }

  /** The required scopes of a row: split on " ", or on "," when that gives one part; one part is kept whole. */
  function ScopeList(s: string): (r: seq<string>)
  {
    if s == "" then []
    else
      var parts := if |Split(s, ' ')| == 1 then Split(s, ',') else Split(s, ' ');
      if |parts| > 1 then TrimmedPieces(parts) else [s]
  }

  /** The redirect URIs of a row: split on ","; one part is kept whole. */
  function RedirectURIList(s: string): (r: seq<string>)
  {
    if s == "" then []
    else
      var parts := Split(s, ',');
      if |parts| > 1 then TrimmedPieces(parts) else [s]
  }

  /** The loop over the parts: trims each one and keeps those that are not empty. */
  method AppendTrimmedPieces(parts: seq<string>) returns (pieces: seq<string>)
    ensures pieces == TrimmedPieces(parts)
  {
    pieces := [];
    for i := 0 to |parts|
      invariant pieces == TrimmedPieces(parts[..i])
    {
      assert parts[..i + 1][..i] == parts[..i];
      var v := TrimSpace(parts[i]);
      if v != "" {
        pieces := pieces + [v];
      }
    }
    assert parts[..|parts|] == parts;
  }

  method RequiredScopes(requiredScopeStr: string) returns (requiredScopes: seq<string>)
    ensures requiredScopes == ScopeList(requiredScopeStr)
  {
    requiredScopes := [];
    if requiredScopeStr != "" {
      var parts := Split(requiredScopeStr, ' ');
      if |parts| == 1 {
        parts := Split(requiredScopeStr, ',');
      }
      if |parts| > 1 {
        requiredScopes := AppendTrimmedPieces(parts);
      } else {
        requiredScopes := [requiredScopeStr];
      }
    }
  }

  method RedirectURIs(redirectURIStr: string) returns (redirectURIs: seq<string>)
    ensures redirectURIs == RedirectURIList(redirectURIStr)
  {
    redirectURIs := [];
    if redirectURIStr != "" {
      var parts := Split(redirectURIStr, ',');
      if |parts| > 1 {
        redirectURIs := AppendTrimmedPieces(parts);
      } else {
        redirectURIs := [redirectURIStr];
      }
    }
  }

  lemma TrimSpaceIdempotent(s: string)
    ensures TrimSpace(TrimSpace(s)) == TrimSpace(s)
  {
    TrimSpaceOfTrimmed(TrimSpace(s));
  }

  /** Every piece is non-empty and has no white space at either end. */
  lemma {:induction false} TrimmedPiecesAreTrimmed(parts: seq<string>)
    ensures forall x :: x in TrimmedPieces(parts) ==> x != "" && TrimSpace(x) == x
  {
    if parts != [] {
      TrimmedPiecesAreTrimmed(parts[..|parts| - 1]);
      TrimSpaceIdempotent(parts[|parts| - 1]);
    }
  }

  /** Scopes and redirect URIs are never empty; split lists hold trimmed pieces. */
  lemma ListsHoldNonEmptyPieces(s: string)
    ensures forall x :: x in ScopeList(s) ==> x != ""
    ensures forall x :: x in RedirectURIList(s) ==> x != ""
    ensures |Split(s, ',')| > 1 ==> forall x :: x in RedirectURIList(s) ==> TrimSpace(x) == x
    ensures |Split(s, ' ')| > 1 ==> forall x :: x in ScopeList(s) ==> TrimSpace(x) == x
  {
    if s != "" {
      TrimmedPiecesAreTrimmed(Split(s, ' '));
      TrimmedPiecesAreTrimmed(Split(s, ','));
    }
  }

  lemma SplitAbsent(s: string, sep: char)
    requires forall i :: 0 <= i < |s| ==> s[i] != sep
    ensures Split(s, sep) == [s]
  {
    assert IndexOf(s, sep) == -1;
  }

  /** Text with neither separator is kept whole, untrimmed. */
  lemma SinglePartKeptWhole(s: string)
    requires s != "" && forall i :: 0 <= i < |s| ==> s[i] != ' ' && s[i] != ','
    ensures ScopeList(s) == [s] && RedirectURIList(s) == [s]
  {
    SplitAbsent(s, ' ');
    SplitAbsent(s, ',');
  }

  /** A piece free of both separators, with no white space at its ends. */
  predicate IsPlainPiece(a: string)
  {
    a != "" && TrimSpace(a) == a && forall i :: 0 <= i < |a| ==> a[i] != ' ' && a[i] != ','
  }

  lemma SplitTwo(a: string, b: string, sep: char)
    requires forall i :: 0 <= i < |a| ==> a[i] != sep
    requires forall i :: 0 <= i < |b| ==> b[i] != sep
    ensures Split(a + [sep] + b, sep) == [a, b]
  {
    assert [a, b][1..] == [b];
    assert Join([a, b], sep) == a + [sep] + b;
    SplitJoin([a, b], sep);
  }

  lemma TwoPieces(a: string, b: string)
    ensures TrimmedPieces([a, b]) == (if TrimSpace(a) != "" then [TrimSpace(a)] else []) + (if TrimSpace(b) != "" then [TrimSpace(b)] else [])
  {
    assert [a, b][..1] == [a];
    assert [a][..0] == [];
  }

  /** Two scopes separated by a space give the two scopes. */
  lemma TwoScopesBySpace(a: string, b: string)
    requires IsPlainPiece(a) && IsPlainPiece(b)
    ensures ScopeList(a + " " + b) == [a, b]
  {
    SplitTwo(a, b, ' ');
    ScopeListOfPlainParts(a + " " + b, a, b);
  }

  /** The scope list of text that splits on spaces into two plain pieces. */
  lemma ScopeListOfPlainParts(s: string, a: string, b: string)
    requires IsPlainPiece(a) && IsPlainPiece(b)
    requires s != "" && Split(s, ' ') == [a, b]
    ensures ScopeList(s) == [a, b]
  {
    ScopeListOfParts(s, [a, b]);
    PlainPiecesKept(a, b);
  }

  /** The scope list of text that splits on spaces into several parts. */
  lemma ScopeListOfParts(s: string, parts: seq<string>)
    requires s != "" && Split(s, ' ') == parts && |parts| > 1
    ensures ScopeList(s) == TrimmedPieces(parts)
  {
  }

  /** Two plain pieces are kept as they are. */
  lemma PlainPiecesKept(a: string, b: string)
    requires IsPlainPiece(a) && IsPlainPiece(b)
    ensures TrimmedPieces([a, b]) == [a, b]
  {
    TrimmedPiecesKept(a, b);
  }

  lemma TrimmedPiecesKept(a: string, b: string)
    requires a != "" && TrimSpace(a) == a && b != "" && TrimSpace(b) == b
    ensures TrimmedPieces([a, b]) == [a, b]
  {
    TwoPieces(a, b);
    assert [a] + [b] == [a, b];
  }

  /** Two scopes separated by a comma give the two scopes, as two URIs separated by a comma give the two URIs. */
  lemma TwoScopesByComma(a: string, b: string)
    requires IsPlainPiece(a) && IsPlainPiece(b)
    ensures ScopeList(a + "," + b) == [a, b]
    ensures RedirectURIList(a + "," + b) == [a, b]
  {
    var c := a + "," + b;
    SplitTwo(a, b, ',');
    assert Split(c, ' ') == [c] by {
      NoSpaceAcrossComma(a, b);
      SplitAbsent(c, ' ');
    }
    ListsOfPlainCommaParts(c, a, b);
  }

  lemma NoSpaceAcrossComma(a: string, b: string)
    requires forall i :: 0 <= i < |a| ==> a[i] != ' '
    requires forall i :: 0 <= i < |b| ==> b[i] != ' '
    ensures forall i :: 0 <= i < |a + "," + b| ==> (a + "," + b)[i] != ' '
  {
  }

  /** The lists of text without spaces that splits on commas into two plain pieces. */
  lemma ListsOfPlainCommaParts(s: string, a: string, b: string)
    requires IsPlainPiece(a) && IsPlainPiece(b)
    requires s != "" && Split(s, ' ') == [s] && Split(s, ',') == [a, b]
    ensures ScopeList(s) == [a, b]
    ensures RedirectURIList(s) == [a, b]
  {
    ListsOfCommaParts(s, [a, b]);
    PlainPiecesKept(a, b);
  }

  /** The lists of text without spaces that splits on commas into several parts. */
  lemma ListsOfCommaParts(s: string, parts: seq<string>)
    requires s != "" && Split(s, ' ') == [s] && Split(s, ',') == parts && |parts| > 1
    ensures ScopeList(s) == TrimmedPieces(parts)
    ensures RedirectURIList(s) == TrimmedPieces(parts)
  {
  }

  /** A comma followed by a space splits on the space only, and the comma stays on the first scope. */
  lemma CommaSpaceKeepsComma(a: string, b: string)
    requires IsPlainPiece(a) && IsPlainPiece(b)
    ensures ScopeList(a + ", " + b) == [a + ",", b]
  {
    CommaSpaceRegrouped(a, b);
    CommaEndedPiece(a, a + ",");
    SpaceSeparatedTrimmed(a + ", " + b, a + ",", b);
  }

  lemma CommaSpaceRegrouped(a: string, b: string)
    ensures a + ", " + b == (a + ",") + " " + b
  {
    assert ", " == "," + " ";
  }

  /** Non-empty text without spaces that is its own TrimSpace. */
  predicate IsSpaceFreeTrimmed(c: string)
  {
    c != "" && TrimSpace(c) == c && forall i :: 0 <= i < |c| ==> c[i] != ' '
  }

  /** A space-free trimmed scope, one space and a plain piece are the two scopes of the list. */
  lemma SpaceSeparatedTrimmed(s: string, c: string, b: string)
    requires IsSpaceFreeTrimmed(c) && IsPlainPiece(b) && s == c + " " + b
    ensures ScopeList(s) == [c, b]
  {
    SpaceSeparatedScopes(s, c, b);
    TrimmedPiecesKept(c, b);
  }

  /** Text of two space-free parts joined by one space is split there, and the parts are trimmed. */
  lemma SpaceSeparatedScopes(s: string, a: string, b: string)
    requires forall i :: 0 <= i < |a| ==> a[i] != ' '
    requires forall i :: 0 <= i < |b| ==> b[i] != ' '
    requires s == a + " " + b
    ensures ScopeList(s) == TrimmedPieces([a, b])
  {
    SplitTwo(a, b, ' ');
    ScopeListOfParts(s, [a, b]);
  }

  /** A plain piece followed by a comma holds no space and has no white space at its ends. */
  lemma CommaEndedPiece(a: string, c: string)
    requires IsPlainPiece(a) && c == a + ","
    ensures IsSpaceFreeTrimmed(c)
  {
    forall i | 0 <= i < |c|
      ensures c[i] != ' '
    {
      if i < |a| {
        assert c[i] == a[i];
      }
    }
    assert c[0] == a[0] == TrimSpace(a)[0];
    assert c[|c| - 1] == ',';
    TrimSpaceOfTrimmed(c);
  }

  // ---------------------------------------------------------------------------------
  // Loading the rows
  // ---------------------------------------------------------------------------------

  /** A row's attributes. */
  function RowData(r: seq<string>, cols: Columns): ApplicationData
  {
    ApplicationData(
      IndexedValue(r, cols.displayName), IndexedValue(r, cols.secret), IndexedValue(r, cols.platformType),
      ScopeList(IndexedValue(r, cols.requiredScopes)), RedirectURIList(IndexedValue(r, cols.oauth2RedirectURI)))
  }

  /** The end of loading: the applications, the error returned, or a panic (an index out of range). */
  datatype LoadResult = Loaded(applications: map<ApplicationID, ApplicationData>) | Failed(err: AzError) | Panicked

  /** The id a row's first field parses to, when it parses. */
  function ParsedID(codec: TextCodec, r: seq<string>): Option<ApplicationID>
  {
    if r == [] then None
    else match FromAZIDText(codec, r[0])
      case Returned(Parsed(id, None)) => Some(id)
      case _ => None
  }

  /** One row: its first field must parse as an application id; the row's attributes are then stored under it. */
  function LoadRow(apps: map<ApplicationID, ApplicationData>, r: seq<string>, cols: Columns, codec: TextCodec): (res: LoadResult)
    ensures res.Loaded? <==> ParsedID(codec, r).Some?
    ensures res.Loaded? ==> res.applications == apps[ParsedID(codec, r).value := RowData(r, cols)]
  {
    if r == [] then Panicked
    else match FromAZIDText(codec, r[0])
      case Panic => Panicked
      case Returned(Parsed(_, Some(e))) => Failed(e)
      case Returned(Parsed(id, None)) => Loaded(apps[id := RowData(r, cols)])
  }

  /** The rows in order, stopping at the first that does not load. */
  function LoadRows(apps: map<ApplicationID, ApplicationData>, rows: seq<seq<string>>, cols: Columns, codec: TextCodec): LoadResult
  {
    if rows == [] then Loaded(apps)
    else
      match LoadRows(apps, rows[..|rows| - 1], cols, codec)
      case Loaded(m) => LoadRow(m, rows[|rows| - 1], cols, codec)
      case other => other
  }

  /**
   * The body of newApplicationStaticDataProviderFromCSVFileByName after the file has been
   * read: fewer rows than skipRows is an error; the first row is the header (an empty file
   * with skipRows 0 panics on it, as does a negative skipRows); the rows after the skipped
   * ones are the applications.
   */
  function Load(rows: seq<seq<string>>, skipRows: int, codec: TextCodec): (r: LoadResult)
    ensures |rows| < skipRows ==> r == Failed(ErrHeaderRowRequired)
    ensures |rows| >= skipRows && (rows == [] || skipRows < 0) ==> r == Panicked
  {
    if |rows| < skipRows then Failed(ErrHeaderRowRequired)
    else if rows == [] then Panicked
    else if skipRows < 0 then Panicked
    else LoadRows(map[], rows[skipRows..], ColumnsOf(rows[0]), codec)
  }

  /** The loop over the rows after the skipped ones. */
  method LoadApplications(rows: seq<seq<string>>, skipRows: int, codec: TextCodec) returns (r: LoadResult)
    ensures r == Load(rows, skipRows, codec)
  {
    if |rows| < skipRows {
      return Failed(ErrHeaderRowRequired);
    }
    if rows == [] || skipRows < 0 {
      return Panicked;
    }
    var cols := HeaderColumns(rows[0]);
    var data := rows[skipRows..];
    var clList: map<ApplicationID, ApplicationData> := map[];
    for i := 0 to |data|
      invariant LoadRows(map[], data[..i], cols, codec) == Loaded(clList)
    {
      var row := data[i];
      RowsStep(data, i, cols, codec, clList);
      if row == [] {
        RowsStop(map[], data, cols, codec, i + 1);
        return Panicked;
      }
      var parsed := FromAZIDText(codec, row[0]);
      if parsed.Panic? {
        RowsStop(map[], data, cols, codec, i + 1);
        return Panicked;
      }
      if parsed.value.err.Some? {
        RowsStop(map[], data, cols, codec, i + 1);
        return Failed(parsed.value.err.value);
      }
      var clID := parsed.value.value;
      var attributes := RowAttributes(row, cols);
      assert LoadRow(clList, row, cols, codec) == Loaded(clList[clID := attributes]);
      clList := clList[clID := attributes];
    }
    assert data[..|data|] == data;
    return Loaded(clList);
  }

  /** One more row, loaded on top of what the rows before it gave. */
  lemma RowsStep(data: seq<seq<string>>, i: nat, cols: Columns, codec: TextCodec,
                 apps: map<ApplicationID, ApplicationData>)
    requires i < |data| && LoadRows(map[], data[..i], cols, codec) == Loaded(apps)
    ensures LoadRows(map[], data[..i + 1], cols, codec) == LoadRow(apps, data[i], cols, codec)
  {
    assert data[..i + 1][..i] == data[..i];
  }

  /** The attributes of one row, read from the columns the header named. */
  method RowAttributes(row: seq<string>, cols: Columns) returns (attributes: ApplicationData)
    ensures attributes == RowData(row, cols)
  {
    var requiredScopes := RequiredScopes(IndexedValue(row, cols.requiredScopes));
    var redirectURIs := RedirectURIs(IndexedValue(row, cols.oauth2RedirectURI));
    attributes := ApplicationData(
      IndexedValue(row, cols.displayName), IndexedValue(row, cols.secret), IndexedValue(row, cols.platformType),
      requiredScopes, redirectURIs);
  }

  /** Once a prefix of the rows fails to load, the whole does, with the same result. */
  lemma {:induction false} RowsStop(apps: map<ApplicationID, ApplicationData>, rows: seq<seq<string>>, cols: Columns, codec: TextCodec, k: nat)
    requires k <= |rows| && !LoadRows(apps, rows[..k], cols, codec).Loaded?
    ensures LoadRows(apps, rows, cols, codec) == LoadRows(apps, rows[..k], cols, codec)
  {
    if k == |rows| {
      assert rows[..k] == rows;
    } else {
      var front := rows[..|rows| - 1];
      assert front[..k] == rows[..k];
      RowsStop(apps, front, cols, codec, k);
    }
  }

  /** Every row of a loaded list parsed. */
  lemma {:induction false} LoadedRowsParsed(apps: map<ApplicationID, ApplicationData>, rows: seq<seq<string>>, cols: Columns, codec: TextCodec)
    requires LoadRows(apps, rows, cols, codec).Loaded?
    ensures forall i :: 0 <= i < |rows| ==> ParsedID(codec, rows[i]).Some?
  {
    if rows != [] {
      var front := rows[..|rows| - 1];
      LoadedRowsParsed(apps, front, cols, codec);
      assert forall i :: 0 <= i < |front| ==> front[i] == rows[i];
    }
  }

  /** A loaded list holds exactly the given ids and the ids the rows parse to. */
  lemma {:induction false} LoadedIds(apps: map<ApplicationID, ApplicationData>, rows: seq<seq<string>>, cols: Columns, codec: TextCodec)
    requires LoadRows(apps, rows, cols, codec).Loaded?
    ensures forall id :: id in LoadRows(apps, rows, cols, codec).applications <==>
      (id in apps || exists i :: 0 <= i < |rows| && ParsedID(codec, rows[i]) == Some(id))
  {
    if rows != [] {
      var front := rows[..|rows| - 1];
      var last := rows[|rows| - 1];
      LoadedIds(apps, front, cols, codec);
      var m := LoadRows(apps, front, cols, codec).applications;
      var id0 := ParsedID(codec, last).value;
      var keys := LoadRows(apps, rows, cols, codec).applications.Keys;
      assert keys == m.Keys + {id0} by {
        assert LoadRows(apps, rows, cols, codec) == LoadRow(m, last, cols, codec);
      }
      IdsOfOneMoreRow(apps, rows, front, codec, m.Keys, id0);
    }
  }

  lemma IdsOfOneMoreRow(apps: map<ApplicationID, ApplicationData>, rows: seq<seq<string>>, front: seq<seq<string>>, codec: TextCodec,
                        ids: set<ApplicationID>, id0: ApplicationID)
    requires rows != [] && front == rows[..|rows| - 1] && ParsedID(codec, rows[|rows| - 1]) == Some(id0)
    requires forall id :: id in ids <==> (id in apps || exists i :: 0 <= i < |front| && ParsedID(codec, front[i]) == Some(id))
    ensures forall id :: id in ids + {id0} <==> (id in apps || exists i :: 0 <= i < |rows| && ParsedID(codec, rows[i]) == Some(id))
  {
    assert forall i :: 0 <= i < |front| ==> rows[i] == front[i];
  }

  /** A later row with the same id overwrites an earlier one: the last row with an id gives its attributes. */
  lemma {:induction false} LastRowWins(apps: map<ApplicationID, ApplicationData>, rows: seq<seq<string>>, cols: Columns, codec: TextCodec, i: nat)
    requires LoadRows(apps, rows, cols, codec).Loaded?
    requires i < |rows| && ParsedID(codec, rows[i]).Some?
    requires forall j :: i < j < |rows| ==> ParsedID(codec, rows[j]) != ParsedID(codec, rows[i])
    ensures var m := LoadRows(apps, rows, cols, codec).applications;
      ParsedID(codec, rows[i]).value in m && m[ParsedID(codec, rows[i]).value] == RowData(rows[i], cols)
  {
    var front := rows[..|rows| - 1];
    if i < |rows| - 1 {
      assert forall j :: i < j < |front| ==> front[j] == rows[j];
      LastRowWins(apps, front, cols, codec, i);
    }
  }

  // ---------------------------------------------------------------------------------
  // The provider
  // ---------------------------------------------------------------------------------

  /** applicationStaticDataProvider: the loaded applications by id. */
  class ApplicationStaticDataProvider {
    var applications: map<ApplicationID, ApplicationData>

    constructor(applications: map<ApplicationID, ApplicationData>)
      ensures this.applications == applications
    {
      this.applications := applications;
    }

    /** GetApplication: the application with its attributes, or nil (and no error) for an unknown id. */
    function GetApplication(appID: ApplicationID): (r: Option<Application>)
      reads this
      ensures appID !in applications <==> r.None?
      ensures r.Some? ==> r.value.id == appID && r.value.attributes == applications[appID]
    {
      if appID in applications then Some(Application(appID, applications[appID])) else None
    }
  }

  /** The provider made from a loaded file finds each row's application, with the last row's attributes for its id. */
  lemma GetLoadedApplication(rows: seq<seq<string>>, skipRows: int, codec: TextCodec, i: nat)
    requires Load(rows, skipRows, codec).Loaded?
    requires skipRows <= i < |rows|
    requires forall j :: i < j < |rows| ==> ParsedID(codec, rows[j]) != ParsedID(codec, rows[i])
    ensures skipRows >= 0
    ensures ParsedID(codec, rows[i]).Some?
    ensures var m := Load(rows, skipRows, codec).applications;
      ParsedID(codec, rows[i]).value in m && m[ParsedID(codec, rows[i]).value] == RowData(rows[i], ColumnsOf(rows[0]))
  {
    var data := rows[skipRows..];
    LoadedRowsParsed(map[], data, ColumnsOf(rows[0]), codec);
    assert data[i - skipRows] == rows[i];
    assert forall j :: i - skipRows < j < |data| ==> data[j] == rows[j + skipRows];
    LastRowWins(map[], data, ColumnsOf(rows[0]), codec, i - skipRows);
  }
}
