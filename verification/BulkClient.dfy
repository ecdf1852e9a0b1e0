/**
 * The bulk upload form: reading the selected files into one metadata entry per token id, and the two requests it
 * sends. A missing text is "" and a missing token id is 0, as the form tests for them.
 */
module BulkClient {
  import opened Wrappers
  import T = UploaderTables
  import U = UploaderTasks
  import S = UploaderSafety

  datatype Metadata = Metadata(tokenId: int, name: string, filename: string, mime: string)

  // A selected file: what a .csv parses to, and what a .json parses to, if it does
  datatype File = File(name: string, mimeType: string, table: seq<Metadata>, document: Option<Metadata>)

  datatype FormError =
    | MissingFilename | MissingName | MissingTokenId | TokenIdOutOfRange
    | InvalidJson | MissingContent(filename: string) | NoMetadata

  predicate EndsWith(s: string, suffix: string) {
    |s| >= |suffix| && s[|s| - |suffix|..] == suffix
  }

  function ValidateMetadata(m: Metadata, maxSupply: nat): Option<FormError> {
    if m.filename == "" then Some(MissingFilename)
    else if m.name == "" then Some(MissingName)
    else if m.tokenId == 0 then Some(MissingTokenId)
    else if m.tokenId < 1 || m.tokenId > maxSupply then Some(TokenIdOutOfRange)
    else None
  }

  // Map.prototype.set: an id that is there keeps its place and takes the new entry
  function MapSet(entries: seq<Metadata>, m: Metadata): seq<Metadata> {
    if entries == [] then [m]
    else if entries[0].tokenId == m.tokenId then [m] + entries[1..]
    else [entries[0]] + MapSet(entries[1..], m)
  }

  // ---- the files ----

  // The metadata a file holds, in order; a table's rows all get one mime type to start with
  function Listed(f: File): Result<seq<Metadata>, FormError> {
    if EndsWith(f.name, ".csv") then Ok(WithDefaultMime(f.table))
    else if EndsWith(f.name, ".json") then
      if f.document.None? then Err(InvalidJson) else Ok([f.document.value])
    else Ok([])
  }

  function WithDefaultMime(table: seq<Metadata>): (r: seq<Metadata>)
    ensures |r| == |table|
    ensures forall k :: 0 <= k < |r| ==> r[k] == table[k].(mime := "image/png")
  {
    seq(|table|, k requires 0 <= k < |table| => table[k].(mime := "image/png"))
  }

  // Adding metadata until one is invalid
  function AddValid(entries: seq<Metadata>, listed: seq<Metadata>, maxSupply: nat): Result<seq<Metadata>, FormError>
    decreases listed
  {
    if listed == [] then Ok(entries)
    else match ValidateMetadata(listed[0], maxSupply)
      case Some(error) => Err(error)
      case None => AddValid(MapSet(entries, listed[0]), listed[1..], maxSupply)
  }

  function AddFiles(entries: seq<Metadata>, files: seq<File>, maxSupply: nat): Result<seq<Metadata>, FormError>
    decreases files
  {
    if files == [] then Ok(entries)
    else match Listed(files[0])
      case Err(error) => Err(error)
      case Ok(listed) =>
        match AddValid(entries, listed, maxSupply)
        case Err(error) => Err(error)
        case Ok(more) => AddFiles(more, files[1..], maxSupply)
  }

  // The last file of that name that is not a .json
  function ContentOf(files: seq<File>, name: string): Option<File> {
    if files == [] then None
    else
      var last := files[|files| - 1];
      if !EndsWith(last.name, ".json") && last.name == name then Some(last) else ContentOf(files[..|files| - 1], name)
  }

  function TakeMimes(entries: seq<Metadata>, files: seq<File>): Result<seq<Metadata>, FormError> {
    if entries == [] then Ok([])
    else match ContentOf(files, entries[0].filename)
      case None => Err(MissingContent(entries[0].filename))
      case Some(f) =>
        match TakeMimes(entries[1..], files)
        case Err(error) => Err(error)
        case Ok(rest) => Ok([entries[0].(mime := f.mimeType)] + rest)
  }

  function Selected(files: seq<File>, maxSupply: nat): Result<seq<Metadata>, FormError> {
    match AddFiles([], files, maxSupply)
    case Err(error) => Err(error)
    case Ok(entries) =>
      match TakeMimes(entries, files)
      case Err(error) => Err(error)
      case Ok(ready) => if ready == [] then Err(NoMetadata) else Ok(ready)
  }

  method AddListed(entries: seq<Metadata>, listed: seq<Metadata>, maxSupply: nat) returns (r: Result<seq<Metadata>,
                   FormError>)
    ensures r == AddValid(entries, listed, maxSupply)
  {
    var inscriptions := entries;
    for k := 0 to |listed|
      invariant AddValid(inscriptions, listed[k..], maxSupply) == AddValid(entries, listed, maxSupply)
    {
      assert listed[k..][0] == listed[k] && listed[k..][1..] == listed[k + 1..];
      var error := ValidateMetadata(listed[k], maxSupply);
      if error.Some? {
        return Err(error.value);
      }
      inscriptions := MapSet(inscriptions, listed[k]);
    }
    return Ok(inscriptions);
  }

  ghost predicate NamesContent(contentByName: map<string, File>, files: seq<File>) {
    forall name ::
      && (name in contentByName <==> ContentOf(files, name).Some?)
      && (name in contentByName ==> ContentOf(files, name) == Some(contentByName[name]))
  }

  lemma NoContent()
    ensures NamesContent(map[], [])
  {}

  lemma ContentAdded(contentByName: map<string, File>, files: seq<File>, file: File)
    requires NamesContent(contentByName, files)
    ensures NamesContent(if EndsWith(file.name, ".json") then contentByName else contentByName[file.name := file],
                         files + [file])
  {
    hide EndsWith;
    assert (files + [file])[..|files + [file]| - 1] == files;
  }

  method ReadFiles(files: seq<File>, maxSupply: nat)
    returns (r: Result<seq<Metadata>, FormError>, contentByName: map<string, File>)
    ensures r == AddFiles([], files, maxSupply)
    ensures r.Ok? ==> NamesContent(contentByName, files)
  {
    hide NamesContent, AddValid, EndsWith;
    var inscriptions: seq<Metadata> := [];
    contentByName := map[];
    NoContent();
    assert files[..0] == [];
    for i := 0 to |files|
      invariant AddFiles(inscriptions, files[i..], maxSupply) == AddFiles([], files, maxSupply)
      invariant NamesContent(contentByName, files[..i])
    {
      var file := files[i];
      assert files[i..][0] == file && files[i..][1..] == files[i + 1..];
      assert files[..i + 1] == files[..i] + [file];
      ContentAdded(contentByName, files[..i], file);
      var listed: seq<Metadata> := [];
      if EndsWith(file.name, ".csv") {
        listed := WithDefaultMime(file.table);
      } else if EndsWith(file.name, ".json") {
        if file.document.None? {
          r := Err(InvalidJson);
          return;
        }
        listed := [file.document.value];
      }
      r := AddListed(inscriptions, listed, maxSupply);
      if r.Err? {
        return;
      }
      inscriptions := r.value;
      if !EndsWith(file.name, ".json") {
        contentByName := contentByName[file.name := file];
      }
    }
    assert files[..|files|] == files;
    r := Ok(inscriptions);
  }

  method AttachContent(entries: seq<Metadata>, contentByName: map<string, File>, ghost files: seq<File>)
    returns (r: Result<seq<Metadata>, FormError>)
    requires NamesContent(contentByName, files)
    ensures r == TakeMimes(entries, files)
  {
    var inscriptions: seq<Metadata> := [];
    assert entries[0..] == entries;
    if TakeMimes(entries, files).Ok? {
      assert [] + TakeMimes(entries, files).value == TakeMimes(entries, files).value;
    }
    for k := 0 to |entries|
      invariant TakeMimes(entries, files)
             == match TakeMimes(entries[k..], files)
                case Err(error) => Err(error)
                case Ok(rest) => Ok(inscriptions + rest)
    {
      var metadata := entries[k];
      assert metadata == entries[k..][0] && entries[k..][1..] == entries[k + 1..];
      if metadata.filename !in contentByName {
        return Err(MissingContent(metadata.filename));
      }
      var updated := metadata.(mime := contentByName[metadata.filename].mimeType);
      if TakeMimes(entries[k + 1..], files).Ok? {
        ghost var rest := TakeMimes(entries[k + 1..], files).value;
        assert inscriptions + ([updated] + rest) == inscriptions + [updated] + rest;
      }
      inscriptions := inscriptions + [updated];
    }
    assert inscriptions + [] == inscriptions;
    return Ok(inscriptions);
  }

  // onSubmit up to the first request
  method ReadSelection(files: seq<File>, maxSupply: nat) returns (r: Result<seq<Metadata>, FormError>)
    ensures r == Selected(files, maxSupply)
  {
    var contentByName;
    r, contentByName := ReadFiles(files, maxSupply);
    if r.Err? {
      return;
    }
    r := AttachContent(r.value, contentByName, files);
    if r.Ok? && |r.value| == 0 {
      r := Err(NoMetadata);
    }
  }

  // ---- what a selection is ----

  // All metadata of the files, in reading order
  function AllListed(files: seq<File>): seq<Metadata> {
    if files == [] then []
    else (match Listed(files[0]) case Ok(listed) => listed case Err(_) => []) + AllListed(files[1..])
  }

  ghost predicate DistinctIds(entries: seq<Metadata>) {
    forall i, j :: 0 <= i < j < |entries| ==> entries[i].tokenId != entries[j].tokenId
  }

  // The last metadata with that token id
  function LastWith(listed: seq<Metadata>, tokenId: int): Option<Metadata> {
    if listed == [] then None
    else if listed[|listed| - 1].tokenId == tokenId then Some(listed[|listed| - 1])
    else LastWith(listed[..|listed| - 1], tokenId)
  }

  // Each id once, with the last metadata that has it
  ghost predicate Holds(entries: seq<Metadata>, listed: seq<Metadata>) {
    && DistinctIds(entries)
    && (forall m :: m in entries ==> LastWith(listed, m.tokenId) == Some(m))
    && (forall m :: m in listed ==> exists e :: e in entries && e.tokenId == m.tokenId)
  }

  lemma {:induction false} SetMember(entries: seq<Metadata>, m: Metadata)
    requires DistinctIds(entries)
    ensures DistinctIds(MapSet(entries, m))
    ensures forall x :: x in MapSet(entries, m) <==> x == m || (x in entries && x.tokenId != m.tokenId)
  {
    if entries != [] && entries[0].tokenId != m.tokenId {
      SetMember(entries[1..], m);
      assert entries == [entries[0]] + entries[1..];
      var after := MapSet(entries, m);
      assert after[1..] == MapSet(entries[1..], m);
      forall k | 1 <= k < |after| ensures after[k].tokenId != entries[0].tokenId {
        assert after[k] in after[1..];
      }
    } else if entries != [] {
      assert entries == [entries[0]] + entries[1..];
      assert forall x :: x in entries[1..] ==> x.tokenId != m.tokenId;
    }
  }

  lemma SetHolds(entries: seq<Metadata>, listed: seq<Metadata>, m: Metadata)
    requires Holds(entries, listed)
    ensures Holds(MapSet(entries, m), listed + [m])
  {
    SetMember(entries, m);
    var after, all := MapSet(entries, m), listed + [m];
    assert all[..|all| - 1] == listed;
    assert m in after;
    forall x | x in all ensures exists e :: e in after && e.tokenId == x.tokenId {
      if x.tokenId != m.tokenId {
        var e :| e in entries && e.tokenId == x.tokenId;
        assert e in after;
      }
    }
  }

  lemma {:induction false} AddValidHolds(entries: seq<Metadata>, before: seq<Metadata>, listed: seq<Metadata>,
                                         maxSupply: nat)
    requires Holds(entries, before)
    requires AddValid(entries, listed, maxSupply).Ok?
    ensures Holds(AddValid(entries, listed, maxSupply).value, before + listed)
    ensures forall m :: m in listed ==> ValidateMetadata(m, maxSupply).None?
    decreases listed
  {
    hide Holds, ValidateMetadata;
    if listed == [] {
      assert before + listed == before;
    } else {
      SetHolds(entries, before, listed[0]);
      AddValidHolds(MapSet(entries, listed[0]), before + [listed[0]], listed[1..], maxSupply);
      assert before + [listed[0]] + listed[1..] == before + listed;
    }
  }

  lemma {:induction false} AddFilesHolds(entries: seq<Metadata>, before: seq<Metadata>, files: seq<File>,
                                         maxSupply: nat)
    requires Holds(entries, before)
    requires AddFiles(entries, files, maxSupply).Ok?
    ensures Holds(AddFiles(entries, files, maxSupply).value, before + AllListed(files))
    ensures forall m :: m in AllListed(files) ==> ValidateMetadata(m, maxSupply).None?
    decreases files
  {
    hide Holds, ValidateMetadata, Listed;
    if files == [] {
      assert before + AllListed(files) == before;
    } else {
      var listed := Listed(files[0]).value;
      AddValidHolds(entries, before, listed, maxSupply);
      AddFilesHolds(AddValid(entries, listed, maxSupply).value, before + listed, files[1..], maxSupply);
      assert before + listed + AllListed(files[1..]) == before + AllListed(files);
    }
  }

  lemma {:induction false} MimesTaken(entries: seq<Metadata>, files: seq<File>)
    requires TakeMimes(entries, files).Ok?
    ensures var ready := TakeMimes(entries, files).value;
      && |ready| == |entries|
      && forall k :: 0 <= k < |ready| ==>
           && ContentOf(files, entries[k].filename).Some?
           && ready[k] == entries[k].(mime := ContentOf(files, entries[k].filename).value.mimeType)
  {
    if entries != [] { MimesTaken(entries[1..], files); }
  }

  lemma {:induction false} LastIsListed(listed: seq<Metadata>, tokenId: int)
    requires LastWith(listed, tokenId).Some?
    ensures LastWith(listed, tokenId).value in listed
  {
    if listed[|listed| - 1].tokenId != tokenId { LastIsListed(listed[..|listed| - 1], tokenId); }
  }

  lemma RawEntry(raw: seq<Metadata>, all: seq<Metadata>, maxSupply: nat, k: nat)
    requires Holds(raw, all) && k < |raw|
    requires forall m :: m in all ==> ValidateMetadata(m, maxSupply).None?
    ensures LastWith(all, raw[k].tokenId) == Some(raw[k])
    ensures 1 <= raw[k].tokenId <= maxSupply && raw[k].name != "" && raw[k].filename != ""
  {
    assert raw[k] in raw;
    LastIsListed(all, raw[k].tokenId);
  }

  lemma SelectedFrom(files: seq<File>, maxSupply: nat)
    requires Selected(files, maxSupply).Ok?
    ensures AddFiles([], files, maxSupply).Ok?
    ensures var raw := AddFiles([], files, maxSupply).value;
      && raw != [] && TakeMimes(raw, files) == Selected(files, maxSupply)
      && Holds(raw, AllListed(files))
    ensures forall m :: m in AllListed(files) ==> ValidateMetadata(m, maxSupply).None?
  {
    hide AddFiles, AllListed, ValidateMetadata;
    AddFilesHolds([], [], files, maxSupply);
    assert [] + AllListed(files) == AllListed(files);
  }

  // An accepted selection has one entry for each token id of the files and no other, made from the last metadata with
  // that id, except for the mime type, which is that of the content file the entry names; and every id is within
  // 1..max_supply.
  lemma SelectionIsSound(files: seq<File>, maxSupply: nat)
    requires Selected(files, maxSupply).Ok?
    ensures var entries := Selected(files, maxSupply).value;
      && entries != [] && DistinctIds(entries)
      && (forall k :: 0 <= k < |entries| ==>
            && 1 <= entries[k].tokenId <= maxSupply && entries[k].name != "" && entries[k].filename != ""
            && LastWith(AllListed(files), entries[k].tokenId).Some?
            && ContentOf(files, entries[k].filename).Some?
            && entries[k] == LastWith(AllListed(files), entries[k].tokenId).value
                             .(mime := ContentOf(files, entries[k].filename).value.mimeType))
      && (forall m :: m in AllListed(files) ==> exists k :: 0 <= k < |entries| && entries[k].tokenId == m.tokenId)
  {
    SelectedFrom(files, maxSupply);
    hide Selected, AddFiles, TakeMimes, AllListed, ContentOf, LastWith, ValidateMetadata;
    var raw := AddFiles([], files, maxSupply).value;
    var all := AllListed(files);
    MimesTaken(raw, files);
    var entries := Selected(files, maxSupply).value;
    forall k | 0 <= k < |entries|
      ensures LastWith(all, entries[k].tokenId) == Some(raw[k])
      ensures 1 <= raw[k].tokenId <= maxSupply && raw[k].name != "" && raw[k].filename != ""
    {
      RawEntry(raw, all, maxSupply, k);
    }
    forall m | m in all ensures exists k :: 0 <= k < |entries| && entries[k].tokenId == m.tokenId {
      var e :| e in raw && e.tokenId == m.tokenId;
      var k :| 0 <= k < |raw| && raw[k] == e;
      assert entries[k].tokenId == m.tokenId;
    }
  }

  // What is wrong with a metadata, the first thing of what the form asks for in turn
  lemma InvalidExactly(m: Metadata, maxSupply: nat)
    ensures var error := ValidateMetadata(m, maxSupply);
      && (error == Some(MissingFilename) <==> m.filename == "")
      && (error == Some(MissingName) <==> m.filename != "" && m.name == "")
      && (error == Some(MissingTokenId) <==> m.filename != "" && m.name != "" && m.tokenId == 0)
      && (error == Some(TokenIdOutOfRange) <==>
          m.filename != "" && m.name != "" && m.tokenId != 0 && !(1 <= m.tokenId <= maxSupply))
  {}

  // The first file an entry needs and does not find is the one that is reported.
  lemma {:induction false} MissingExactly(entries: seq<Metadata>, files: seq<File>)
    ensures TakeMimes(entries, files).Err? ==>
      exists k :: 0 <= k < |entries| && ContentOf(files, entries[k].filename).None?
        && TakeMimes(entries, files) == Err(MissingContent(entries[k].filename))
        && forall j :: 0 <= j < k ==> ContentOf(files, entries[j].filename).Some?
  {
    hide ContentOf;
    if entries != [] && ContentOf(files, entries[0].filename).Some? && TakeMimes(entries, files).Err? {
      MissingExactly(entries[1..], files);
      var k :| 0 <= k < |entries[1..]| && ContentOf(files, entries[1..][k].filename).None?
        && TakeMimes(entries[1..], files) == Err(MissingContent(entries[1..][k].filename))
        && forall j :: 0 <= j < k ==> ContentOf(files, entries[1..][j].filename).Some?;
      assert entries[k + 1] == entries[1..][k];
      forall j | 0 <= j < k + 1 ensures ContentOf(files, entries[j].filename).Some? {
        if j > 0 { assert entries[j] == entries[1..][j - 1]; }
      }
    }
  }

  // ---- when a selection is accepted ----

  // The metadata found in a file: the rows of a table, with one mime type to start with, or the document of a .json
  ghost predicate FoundIn(f: File, m: Metadata) {
    if EndsWith(f.name, ".csv") then
      exists k :: 0 <= k < |f.table| && m.tokenId == f.table[k].tokenId && m.name == f.table[k].name
                  && m.filename == f.table[k].filename && m.mime == "image/png"
    else EndsWith(f.name, ".json") && f.document == Some(m)
  }

  ghost predicate Found(files: seq<File>, m: Metadata) {
    exists k :: 0 <= k < |files| && FoundIn(files[k], m)
  }

  lemma {:induction false} ListedExactly(files: seq<File>, m: Metadata)
    ensures m in AllListed(files) <==> Found(files, m)
  {
    if files != [] {
      var f, rest := files[0], files[1..];
      ListedExactly(rest, m);
      ListedInOne(f);
      hide Listed, FoundIn;
      assert AllListed(files) == (match Listed(f) case Ok(listed) => listed case Err(_) => []) + AllListed(rest);
      if Found(rest, m) {
        var k :| 0 <= k < |rest| && FoundIn(rest[k], m);
        assert FoundIn(files[k + 1], m);
      }
      if FoundIn(f, m) { assert FoundIn(files[0], m); }
      if Found(files, m) {
        var k :| 0 <= k < |files| && FoundIn(files[k], m);
        if k > 0 { assert FoundIn(rest[k - 1], m); }
      }
    }
  }

  lemma ListedInOne(f: File)
    ensures forall m :: m in (match Listed(f) case Ok(listed) => listed case Err(_) => []) <==> FoundIn(f, m)
  {
    hide EndsWith;
    if EndsWith(f.name, ".csv") {
      var listed := Listed(f).value;
      forall m ensures m in listed <==> FoundIn(f, m) {
        if m in listed {
          var k :| 0 <= k < |listed| && listed[k] == m;
          assert f.table[k].tokenId == m.tokenId;
        }
        if FoundIn(f, m) {
          var k :| 0 <= k < |f.table| && m.tokenId == f.table[k].tokenId && m.name == f.table[k].name
                   && m.filename == f.table[k].filename && m.mime == "image/png";
          assert listed[k] == m;
        }
      }
    }
  }

  lemma {:induction false} AddValidExactly(entries: seq<Metadata>, listed: seq<Metadata>, maxSupply: nat)
    ensures AddValid(entries, listed, maxSupply).Ok?
       <==> forall m :: m in listed ==> ValidateMetadata(m, maxSupply).None?
    decreases listed
  {
    hide ValidateMetadata;
    if listed != [] { AddValidExactly(MapSet(entries, listed[0]), listed[1..], maxSupply); }
  }

  lemma {:induction false} AddFilesExactly(entries: seq<Metadata>, files: seq<File>, maxSupply: nat)
    ensures AddFiles(entries, files, maxSupply).Ok?
       <==> (forall f :: f in files ==> Listed(f).Ok?)
            && forall m :: m in AllListed(files) ==> ValidateMetadata(m, maxSupply).None?
    decreases files
  {
    hide ValidateMetadata, Listed;
    if files != [] && Listed(files[0]).Ok? {
      var listed := Listed(files[0]).value;
      AddValidExactly(entries, listed, maxSupply);
      if AddValid(entries, listed, maxSupply).Ok? {
        AddFilesExactly(AddValid(entries, listed, maxSupply).value, files[1..], maxSupply);
      }
      assert AllListed(files) == listed + AllListed(files[1..]);
      assert forall f :: f in files <==> f == files[0] || f in files[1..];
    }
  }

  lemma {:induction false} TakeMimesExactly(entries: seq<Metadata>, files: seq<File>)
    ensures TakeMimes(entries, files).Ok? <==> forall m :: m in entries ==> ContentOf(files, m.filename).Some?
    ensures TakeMimes(entries, files).Ok? ==> |TakeMimes(entries, files).value| == |entries|
  {
    if entries != [] { TakeMimesExactly(entries[1..], files); }
  }

  lemma {:induction false} ContentExactly(files: seq<File>, name: string)
    ensures ContentOf(files, name).Some? <==> exists f :: f in files && f.name == name && !EndsWith(name, ".json")
    decreases |files|
  {
    hide EndsWith;
    if files != [] {
      var init, last := files[..|files| - 1], files[|files| - 1];
      ContentExactly(init, name);
      assert files == init + [last];
    }
  }

  // A file with that name that can be content
  ghost predicate HasContent(files: seq<File>, name: string) {
    exists f :: f in files && f.name == name && !EndsWith(name, ".json")
  }

  ghost predicate IsComplete(m: Metadata, maxSupply: nat) {
    m.filename != "" && m.name != "" && 1 <= m.tokenId <= maxSupply
  }

  // The form takes a selection exactly if every .json file parses, everything found in the files has a file name, a
  // name and an id within the supply, there is something, and for each id the last metadata found for it names a file
  // of the selection that is not a .json.
  lemma SelectionIsAcceptedExactly(files: seq<File>, maxSupply: nat)
    ensures Selected(files, maxSupply).Ok?
       <==> && (forall f :: f in files && EndsWith(f.name, ".json") && !EndsWith(f.name, ".csv") ==> f.document.Some?)
            && (forall m :: Found(files, m) ==> IsComplete(m, maxSupply))
            && (exists m :: Found(files, m))
            && (forall m :: Found(files, m) && LastWith(AllListed(files), m.tokenId) == Some(m) ==>
                  HasContent(files, m.filename))
  {
    AddFilesExactly([], files, maxSupply);
    JsonExactly(files);
    ValidExactly(files, maxSupply);
    hide EndsWith, Found, HasContent, Listed, ValidateMetadata, IsComplete, AddFiles, TakeMimes, ContentOf, LastWith,
         AllListed;
    if AddFiles([], files, maxSupply).Ok? { ContentsExactly(files, maxSupply); }
  }

  lemma ContentsExactly(files: seq<File>, maxSupply: nat)
    requires AddFiles([], files, maxSupply).Ok?
    ensures var raw := AddFiles([], files, maxSupply).value;
      && (TakeMimes(raw, files).Ok? <==>
          forall m :: Found(files, m) && LastWith(AllListed(files), m.tokenId) == Some(m) ==>
            HasContent(files, m.filename))
      && (TakeMimes(raw, files).Ok? ==>
            (TakeMimes(raw, files).value != [] <==> exists m :: Found(files, m)))
  {
    var raw := AddFiles([], files, maxSupply).value;
    RawIsFound(files, maxSupply);
    TakeMimesExactly(raw, files);
    hide EndsWith, Found, HasContent, AddFiles, TakeMimes, ContentOf, LastWith, AllListed;
    forall name ensures ContentOf(files, name).Some? <==> HasContent(files, name) { ContentHere(files, name); }
  }

  lemma NothingHeld()
    ensures Holds([], [])
  {}

  lemma RawIsFound(files: seq<File>, maxSupply: nat)
    requires AddFiles([], files, maxSupply).Ok?
    ensures var raw := AddFiles([], files, maxSupply).value;
      && (forall m :: m in raw <==> Found(files, m) && LastWith(AllListed(files), m.tokenId) == Some(m))
      && (raw != [] <==> exists m :: Found(files, m))
  {
    hide Found, AddFiles, LastWith, AllListed, Holds, ValidateMetadata;
    var raw, all := AddFiles([], files, maxSupply).value, AllListed(files);
    NothingHeld();
    AddFilesHolds([], [], files, maxSupply);
    assert [] + all == all;
    RawIsLast(raw, all);
    AllAreFound(files);
    forall m ensures m in raw <==> Found(files, m) && LastWith(all, m.tokenId) == Some(m) {
      if LastWith(all, m.tokenId) == Some(m) { LastIsListed(all, m.tokenId); }
    }
  }

  lemma AllAreFound(files: seq<File>)
    ensures forall m :: m in AllListed(files) <==> Found(files, m)
    ensures AllListed(files) == [] <==> forall m :: !Found(files, m)
  {
    hide Found, AllListed;
    forall m ensures m in AllListed(files) <==> Found(files, m) { ListedExactly(files, m); }
    if AllListed(files) != [] { assert AllListed(files)[0] in AllListed(files); }
  }

  lemma ContentHere(files: seq<File>, name: string)
    ensures ContentOf(files, name).Some? <==> HasContent(files, name)
  {
    ContentExactly(files, name);
  }

  lemma JsonExactly(files: seq<File>)
    ensures (forall f :: f in files ==> Listed(f).Ok?)
       <==> forall f :: f in files && EndsWith(f.name, ".json") && !EndsWith(f.name, ".csv") ==> f.document.Some?
  {
    hide EndsWith;
  }

  lemma ValidExactly(files: seq<File>, maxSupply: nat)
    ensures (forall m :: m in AllListed(files) ==> ValidateMetadata(m, maxSupply).None?)
       <==> forall m :: Found(files, m) ==> IsComplete(m, maxSupply)
  {
    AllAreFound(files);
    forall m ensures ValidateMetadata(m, maxSupply).None? <==> IsComplete(m, maxSupply) {}
    hide Found, AllListed, ValidateMetadata, IsComplete;
  }

  lemma RawIsLast(raw: seq<Metadata>, all: seq<Metadata>)
    requires Holds(raw, all)
    ensures forall m: Metadata :: m in raw <==> LastWith(all, m.tokenId) == Some(m)
    ensures raw == [] <==> all == []
  {
    forall m: Metadata | LastWith(all, m.tokenId) == Some(m) ensures m in raw {
      LastIsListed(all, m.tokenId);
      var e :| e in raw && e.tokenId == m.tokenId;
    }
    if all != [] { assert all[0] in all; }
    if raw != [] {
      assert raw[0] in raw;
      LastIsListed(all, raw[0].tokenId);
    }
  }

  // ---- the two requests ----

  function UploadItems(entries: seq<Metadata>): (r: seq<U.Item>)
    ensures |r| == |entries|
    ensures forall k :: 0 <= k < |r| ==> r[k] == U.Item(entries[k].tokenId, entries[k].filename)
  {
    seq(|entries|, k requires 0 <= k < |entries| => U.Item(entries[k].tokenId, entries[k].filename))
  }

  function ConfirmIds(entries: seq<Metadata>): (r: seq<int>)
    ensures |r| == |entries|
    ensures forall k :: 0 <= k < |r| ==> r[k] == entries[k].tokenId
  {
    seq(|entries|, k requires 0 <= k < |entries| => entries[k].tokenId)
  }

  lemma RequestsAgree(entries: seq<Metadata>)
    ensures S.AmongItems(ConfirmIds(entries), UploadItems(entries))
  {
    var items, ids := UploadItems(entries), ConfirmIds(entries);
    forall k | 0 <= k < |ids| ensures S.HasItem(items, ids[k]) {
      assert items[k].tokenId == ids[k];
    }
  }

  // From the files to the table: if the upload request is answered with its URLs, and the confirm request then runs
  // to its end without being killed, every token id of the selection is a row marked uploaded from then on, whatever
  // other clients do meanwhile, although the answer to the confirm is never looked at.
  lemma SubmitUploadsEverything(files: seq<File>, maxSupply: nat, session: string, launch: string,
                                before: seq<U.Event>, j: nat, folder: string, during: seq<U.Event>, later: seq<U.Event>)
    requires Selected(files, maxSupply).Ok?
    requires j < |U.Run(U.IDLE, before).tasks|
    requires var items := UploadItems(Selected(files, maxSupply).value);
      U.Run(U.IDLE, before).tasks[j]
      == U.Task(U.Act(session, U.BulkUpload(launch, items)), U.Done(U.Urls(folder, items)))
    ensures var c0 := U.Run(U.IDLE, before);
      var i := |c0.tasks|;
      var ids := ConfirmIds(Selected(files, maxSupply).value);
      var c1 := U.Run(U.Step(c0, U.Arrive(U.Act(session, U.BulkConfirm(launch, ids)))), during);
      !S.Killed(during, i) && S.Moves(during, i) >= 3 ==>
        forall m :: m in AllListed(files) ==>
          1 <= m.tokenId <= maxSupply && T.IsUploaded(U.Run(c1, later).tables.rows, launch, m.tokenId)
  {
    var entries := Selected(files, maxSupply).value;
    var items, ids := UploadItems(entries), ConfirmIds(entries);
    SelectionIsSound(files, maxSupply);
    hide Selected, U.Run, U.Step, AllListed, ContentOf, S.Killed, S.Moves, T.IsUploaded;
    hide S.AmongItems;
    RequestsAgree(entries);
    S.BulkUploadProtocol(before, j, session, launch, items, folder, ids, during, later);
    forall m | m in AllListed(files)
      ensures 1 <= m.tokenId <= maxSupply && exists k :: 0 <= k < |ids| && ids[k] == m.tokenId
    {
      var k :| 0 <= k < |entries| && entries[k].tokenId == m.tokenId;
      assert ids[k] == m.tokenId;
    }
  }
}
