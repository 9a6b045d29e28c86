/** The efficiency definitions of pid_dedx/PiddEdx.cpp: each definition is
    a line of text naming a target with "tgt:" and a ROOT file with "src:";
    every key of that file named "efficiency_<pid>" is a directory holding
    the (multiplicity, y_cm, pT) efficiency of that species.

    The three patterns are ECMAScript regular expressions anchored at both
    ends, "^.*tgt:(\w+).*$", "^.*src:([^\s]+).*$" and
    "^efficiency_([-\d]+)$". Their meaning is written out here: '.' does not
    match a line terminator, so a definition holding '\n' or '\r' matches
    neither tag pattern; the greedy leading ".*" makes the capture start at
    the last qualifying occurrence of the tag, and the greedy group takes
    the longest run of its class from there. */
module EfficiencyDefinitions {
  import opened Wrappers
  import IntText

  // ---------------------------------------------------------------------
  // Character classes

  /** The two classes a tag's value is drawn from: \w and [^\s]. */
  datatype CharClass = Word | NonSpace

  predicate IsWordChar(ch: char) {
    'a' <= ch <= 'z' || 'A' <= ch <= 'Z' || '0' <= ch <= '9' || ch == '_'
  }

  /** \s in the classic locale: space, tab, line feed, vertical tab, form feed, carriage return. */
  predicate IsSpace(ch: char) {
    ch == ' ' || ch == '\t' || ch == '\n' || ch == '\U{0B}' || ch == '\U{0C}' || ch == '\r'
  }

  predicate InClass(cls: CharClass, ch: char) {
    match cls
    case Word => IsWordChar(ch)
    case NonSpace => !IsSpace(ch)
  }

  predicate IsLineTerminator(ch: char) {
    ch == '\n' || ch == '\r'
  }

  /** The text has no line terminator, so ".*" can span any part of it. */
  predicate SingleLine(s: string) {
    forall k :: 0 <= k < |s| ==> !IsLineTerminator(s[k])
  }

  // ---------------------------------------------------------------------
  // Tags

  /** An occurrence of tag at position p that the pattern can use: the tag
      is followed by at least one character of the capture's class. */
  predicate TagAt(s: string, tag: string, cls: CharClass, p: nat) {
    p + |tag| < |s| && s[p..p + |tag|] == tag && InClass(cls, s[p + |tag|])
  }

  /** No usable occurrence of the tag starts after p. */
  ghost predicate LastTag(s: string, tag: string, cls: CharClass, p: nat) {
    forall q: nat :: p < q ==> !TagAt(s, tag, cls, q)
  }

  /** The last usable occurrence of the tag starting before n. */
  function LastTagBefore(s: string, tag: string, cls: CharClass, n: nat): (r: Option<nat>)
    requires n <= |s|
    ensures r.Some? ==> r.value < n && TagAt(s, tag, cls, r.value)
    ensures forall q: nat :: (r.None? || r.value < q) && q < n ==> !TagAt(s, tag, cls, q)
    decreases n
  {
    if n == 0 then None
    else if TagAt(s, tag, cls, n - 1) then Some(n - 1)
    else LastTagBefore(s, tag, cls, n - 1)
  }

  /** The longest run of characters of the class starting at i. */
  function RunFrom(s: string, cls: CharClass, i: nat): (r: string)
    requires i <= |s|
    ensures i + |r| <= |s| && r == s[i..i + |r|]
    ensures forall k :: 0 <= k < |r| ==> InClass(cls, r[k])
    ensures i + |r| == |s| || !InClass(cls, s[i + |r|])
    decreases |s| - i
  {
    if i < |s| && InClass(cls, s[i]) then [s[i]] + RunFrom(s, cls, i + 1) else []
  }

  /** The capture of "^.*<tag>(<class>+).*$" searched in s, if the text matches. */
  function ExtractTag(s: string, tag: string, cls: CharClass): (r: Option<string>)
    ensures r.Some? ==> |r.value| > 0 && forall k :: 0 <= k < |r.value| ==> InClass(cls, r.value[k])
  {
    if !SingleLine(s) then None
    else
      match LastTagBefore(s, tag, cls, |s|)
      case None => None
      case Some(p) => Some(RunFrom(s, cls, p + |tag|))
  }

  /** The pattern matches exactly a single-line text with a usable
      occurrence of the tag. */
  lemma ExtractTagFound(s: string, tag: string, cls: CharClass)
    ensures ExtractTag(s, tag, cls).Some? <==> SingleLine(s) && exists p: nat :: TagAt(s, tag, cls, p)
  {
    var last := LastTagBefore(s, tag, cls, |s|);
    if last.Some? {
      assert TagAt(s, tag, cls, last.value);
    } else {
      forall p: nat ensures !TagAt(s, tag, cls, p) {
        if p < |s| {
          assert !TagAt(s, tag, cls, p);
        }
      }
    }
  }

  /** The capture is the longest run of the class after the last usable
      occurrence of the tag. */
  lemma ExtractTagLast(s: string, tag: string, cls: CharClass)
    requires ExtractTag(s, tag, cls).Some?
    ensures exists p: nat :: TagAt(s, tag, cls, p) && LastTag(s, tag, cls, p) &&
                             ExtractTag(s, tag, cls).value == RunFrom(s, cls, p + |tag|)
  {
    var p := LastTagBefore(s, tag, cls, |s|).value;
    forall q: nat | p < q ensures !TagAt(s, tag, cls, q) {
      if q < |s| {
        assert !TagAt(s, tag, cls, q);
      }
    }
    assert LastTag(s, tag, cls, p);
  }

  /** The target named by a definition ("tgt:" followed by word characters). */
  function Target(def: string): Option<string> {
    ExtractTag(def, "tgt:", Word)
  }

  /** The efficiency file named by a definition ("src:" followed by non-space characters). */
  function Source(def: string): Option<string> {
    ExtractTag(def, "src:", NonSpace)
  }

  // ---------------------------------------------------------------------
  // Keys of the efficiency file

  const EfficiencyPrefix: string := "efficiency_"

  /** The characters of [-\d]. */
  predicate IsPidChar(ch: char) {
    ch == '-' || IntText.IsDigit(ch)
  }

  predicate AllPidChars(s: string) {
    forall k :: 0 <= k < |s| ==> IsPidChar(s[k])
  }

  /** The capture of "^efficiency_([-\d]+)$" on a key name, if it matches. */
  function MatchEfficiencyDir(name: string): (r: Option<string>)
    ensures r.Some? ==> name == EfficiencyPrefix + r.value && |r.value| > 0 && AllPidChars(r.value)
  {
    var n := |EfficiencyPrefix|;
    if |name| > n && name[..n] == EfficiencyPrefix && AllPidChars(name[n..]) then Some(name[n..])
    else None
  }

  /** Every name made of the prefix and a non-empty run of [-\d] matches,
      with that run as its capture. */
  lemma MatchEfficiencyDirComplete(suffix: string)
    requires |suffix| > 0 && AllPidChars(suffix)
    ensures MatchEfficiencyDir(EfficiencyPrefix + suffix) == Some(suffix)
  {
    var name := EfficiencyPrefix + suffix;
    assert name[..|EfficiencyPrefix|] == EfficiencyPrefix;
    assert name[|EfficiencyPrefix|..] == suffix;
  }

  /** The species a key stands for: its name matches and the capture is an
      integer. A key whose name matches but whose capture is not an integer
      ("-", "1-2") makes lexical_cast throw. */
  function KeyPid(name: string): Option<int> {
    match MatchEfficiencyDir(name)
    case None => None
    case Some(pidStr) => IntText.ParseInt(pidStr)
  }

  // ---------------------------------------------------------------------
  // Loading the tables

  /** Name of the efficiency read from each species directory. */
  const EfficiencyMatrixName: string := "vtx_sim_centr_y_pt"

  /** A key of an efficiency file: its name, whether it holds a directory,
      and the names of the efficiency objects in that directory. */
  datatype Key = Key(name: string, isDirectory: bool, efficiencies: set<string>)

  /** A loaded efficiency, identified by the file and directory it came from. */
  datatype Matrix = Matrix(file: string, directory: string)

  /** How loading ended: normally, or with the message of the exception thrown. */
  datatype Status = Done | Failed(message: string)

  /** The table map as far as loading got, and how it ended. */
  datatype Loaded = Loaded(tables: map<int, Matrix>, status: Status)

  const NoTargetMessage: string := "No 'tgt' entry in the efficiency definition"
  const NoSourceMessage: string := "No 'src' entry in the efficiency definition"
  const EmptyFileMessage: string := "Efficiency ROOT file seems to be empty"
  const BadCastMessage: string := "bad lexical cast: source type value could not be interpreted as target"
  const NotDirectoryMessage: string := "Expected directory for the efficiency"
  const NoMatrixMessage: string := "Efficiency matrix is not found for "

  /** A key whose name matches loads without error. */
  predicate Loadable(key: Key) {
    match MatchEfficiencyDir(key.name)
    case None => true
    case Some(pidStr) => IntText.ParseInt(pidStr).Some? && key.isDirectory && EfficiencyMatrixName in key.efficiencies
  }

  /** The body of the loop over the keys of file src. It fails exactly on
      a matching key that cannot be loaded; otherwise it adds the key's
      species when that species has no table yet (emplace keeps the table
      already there). */
  function LoadKey(src: string, key: Key, tables: map<int, Matrix>): (r: Loaded)
    ensures r.status.Done? <==> Loadable(key)
    ensures r.status.Failed? ==> r.tables == tables
    ensures r.status.Done? ==>
      r.tables.Keys == tables.Keys + (if KeyPid(key.name).Some? then {KeyPid(key.name).value} else {})
    ensures forall pid :: pid in r.tables ==> r.tables[pid] == if pid in tables then tables[pid] else Matrix(src, key.name)
  {
    match MatchEfficiencyDir(key.name)
    case None => Loaded(tables, Done)
    case Some(pidStr) =>
      match IntText.ParseInt(pidStr)
      case None => Loaded(tables, Failed(BadCastMessage))
      case Some(pid) =>
        if !key.isDirectory then Loaded(tables, Failed(NotDirectoryMessage))
        else if EfficiencyMatrixName !in key.efficiencies then Loaded(tables, Failed(NoMatrixMessage + pidStr))
        else if pid in tables then Loaded(tables, Done)
        else Loaded(tables[pid := Matrix(src, key.name)], Done)
  }

  /** The loop over the keys of file src, stopped by the first exception. */
  function LoadKeys(src: string, keys: seq<Key>, tables: map<int, Matrix>): Loaded
    decreases |keys|
  {
    if keys == [] then Loaded(tables, Done)
    else
      var before := LoadKeys(src, keys[..|keys| - 1], tables);
      if before.status.Failed? then before else LoadKey(src, keys[|keys| - 1], before.tables)
  }

  /** One definition: its tags are checked target first, then its file is
      opened (a file absent from files is one ROOT cannot read) and its keys
      loaded. The target is checked but not used further. */
  function LoadDefinition(def: string, files: map<string, seq<Key>>, tables: map<int, Matrix>): (r: Loaded)
    ensures forall pid :: pid in tables ==> pid in r.tables && r.tables[pid] == tables[pid]
  {
    if Target(def).None? then Loaded(tables, Failed(NoTargetMessage))
    else
      match Source(def)
      case None => Loaded(tables, Failed(NoSourceMessage))
      case Some(src) =>
        if src !in files then Loaded(tables, Failed(EmptyFileMessage))
        else LoadKeysKeeps(src, files[src], tables); LoadKeys(src, files[src], tables)
  }

  /** The tags of a definition are checked target first: a definition
      without a usable "tgt:" fails on the target whatever its source, and
      one with a target but without a usable "src:" fails on the source.
      Either way the map is left as it was. */
  lemma LoadDefinitionErrors(def: string, files: map<string, seq<Key>>, tables: map<int, Matrix>)
    ensures !(SingleLine(def) && exists p: nat :: TagAt(def, "tgt:", Word, p)) ==>
      LoadDefinition(def, files, tables) == Loaded(tables, Failed(NoTargetMessage))
    ensures SingleLine(def) && (exists p: nat :: TagAt(def, "tgt:", Word, p)) &&
            !(exists p: nat :: TagAt(def, "src:", NonSpace, p)) ==>
      LoadDefinition(def, files, tables) == Loaded(tables, Failed(NoSourceMessage))
  {
    ExtractTagFound(def, "tgt:", Word);
    ExtractTagFound(def, "src:", NonSpace);
  }

  /** A definition loads without error: both tags are present, its file can
      be read and every matching key of the file can be loaded. */
  predicate DefinitionLoadable(def: string, files: map<string, seq<Key>>) {
    Target(def).Some? && Source(def).Some? && Source(def).value in files &&
    forall i :: 0 <= i < |files[Source(def).value]| ==> Loadable(files[Source(def).value][i])
  }

  /** The loop over all definitions, stopped by the first exception. */
  function LoadAll(defs: seq<string>, files: map<string, seq<Key>>, tables: map<int, Matrix>): Loaded
    decreases |defs|
  {
    if defs == [] then Loaded(tables, Done)
    else
      var before := LoadAll(defs[..|defs| - 1], files, tables);
      if before.status.Failed? then before else LoadDefinition(defs[|defs| - 1], files, before.tables)
  }

  // ---------------------------------------------------------------------
  // Properties of loading

  /** Loading never replaces or removes a table already in the map. */
  lemma {:induction false} LoadKeysKeeps(src: string, keys: seq<Key>, tables: map<int, Matrix>)
    ensures var r := LoadKeys(src, keys, tables);
      forall pid :: pid in tables ==> pid in r.tables && r.tables[pid] == tables[pid]
    decreases |keys|
  {
    if keys != [] {
      LoadKeysKeeps(src, keys[..|keys| - 1], tables);
    }
  }

  /** The keys of a file load without error exactly when every key whose
      name matches has an integer capture, is a directory and holds the
      efficiency. */
  lemma {:induction false} LoadKeysSucceeds(src: string, keys: seq<Key>, tables: map<int, Matrix>)
    ensures LoadKeys(src, keys, tables).status.Done? <==> forall i :: 0 <= i < |keys| ==> Loadable(keys[i])
    decreases |keys|
  {
    if keys != [] {
      var init := keys[..|keys| - 1];
      LoadKeysSucceeds(src, init, tables);
      assert forall i :: 0 <= i < |init| ==> init[i] == keys[i];
    }
  }

  /** After a successful load the map holds the species it held before and
      those of the keys of the file, and no other. */
  lemma {:induction false} LoadKeysDomain(src: string, keys: seq<Key>, tables: map<int, Matrix>, pid: int)
    requires LoadKeys(src, keys, tables).status.Done?
    ensures pid in LoadKeys(src, keys, tables).tables <==>
      pid in tables || exists i :: 0 <= i < |keys| && KeyPid(keys[i].name) == Some(pid)
    decreases |keys|
  {
    if keys != [] {
      var init := keys[..|keys| - 1];
      LoadKeysDomain(src, init, tables, pid);
      assert forall i :: 0 <= i < |init| ==> init[i] == keys[i];
      if KeyPid(keys[|keys| - 1].name) == Some(pid) {
        assert 0 <= |keys| - 1 < |keys|;
      }
      if exists i :: 0 <= i < |keys| && KeyPid(keys[i].name) == Some(pid) {
        var i :| 0 <= i < |keys| && KeyPid(keys[i].name) == Some(pid);
        if i < |init| {
          assert KeyPid(init[i].name) == Some(pid);
        }
      }
    }
  }

  /** The table of a species new to the map is that of the first key of
      the file standing for it. */
  lemma {:induction false} LoadKeysFirstWins(src: string, keys: seq<Key>, tables: map<int, Matrix>, i: nat, pid: int)
    requires LoadKeys(src, keys, tables).status.Done?
    requires i < |keys| && KeyPid(keys[i].name) == Some(pid) && pid !in tables
    requires forall j :: 0 <= j < i ==> KeyPid(keys[j].name) != Some(pid)
    ensures pid in LoadKeys(src, keys, tables).tables
    ensures LoadKeys(src, keys, tables).tables[pid] == Matrix(src, keys[i].name)
    decreases |keys|
  {
    var init := keys[..|keys| - 1];
    var before := LoadKeys(src, init, tables);
    if i < |init| {
      assert forall j :: 0 <= j < |init| ==> init[j] == keys[j];
      LoadKeysFirstWins(src, init, tables, i, pid);
    } else {
      LoadKeysDomain(src, init, tables, pid);
      assert forall j :: 0 <= j < |init| ==> init[j] == keys[j];
    }
  }

  /** Loading all definitions never replaces or removes a table that was
      already in the map before loading began. */
  lemma {:induction false} LoadAllKeeps(defs: seq<string>, files: map<string, seq<Key>>, tables: map<int, Matrix>)
    ensures var r := LoadAll(defs, files, tables);
      forall pid :: pid in tables ==> pid in r.tables && r.tables[pid] == tables[pid]
    decreases |defs|
  {
    if defs != [] {
      LoadAllKeeps(defs[..|defs| - 1], files, tables);
    }
  }

  /** Across definitions the first table loaded for a species is the one
      kept: every table present after the first `d` definitions is still
      there, unchanged, after all of them. */
  lemma {:induction false} LoadAllPrefixKeeps(defs: seq<string>, files: map<string, seq<Key>>, tables: map<int, Matrix>, d: nat)
    requires d <= |defs|
    ensures var early := LoadAll(defs[..d], files, tables);
      var r := LoadAll(defs, files, tables);
      forall pid :: pid in early.tables ==> pid in r.tables && r.tables[pid] == early.tables[pid]
    decreases |defs|
  {
    if d < |defs| {
      var init := defs[..|defs| - 1];
      assert init[..d] == defs[..d];
      LoadAllPrefixKeeps(init, files, tables, d);
    } else {
      assert defs[..d] == defs;
    }
  }

  /** All definitions load without error exactly when each of them can be
      loaded; the tables already loaded do not matter. */
  lemma {:induction false} LoadAllSucceeds(defs: seq<string>, files: map<string, seq<Key>>, tables: map<int, Matrix>)
    ensures LoadAll(defs, files, tables).status.Done? <==>
      forall d :: 0 <= d < |defs| ==> DefinitionLoadable(defs[d], files)
    decreases |defs|
  {
    if defs != [] {
      var init := defs[..|defs| - 1];
      var last := defs[|defs| - 1];
      var before := LoadAll(init, files, tables);
      LoadAllSucceeds(init, files, tables);
      LoadDefinitionSucceeds(last, files, before.tables);
      assert LoadAll(defs, files, tables).status.Done? <==>
        before.status.Done? && LoadDefinition(last, files, before.tables).status.Done?;
      assert defs == init + [last];
      LoadableSnoc(init, last, files);
    }
  }

  /** Every definition of a list with one more entry can be loaded exactly
      when every earlier one can and the new one can. */
  lemma LoadableSnoc(init: seq<string>, last: string, files: map<string, seq<Key>>)
    ensures (forall d :: 0 <= d < |init + [last]| ==> DefinitionLoadable((init + [last])[d], files)) <==>
      (forall d :: 0 <= d < |init| ==> DefinitionLoadable(init[d], files)) && DefinitionLoadable(last, files)
  {
    var defs := init + [last];
    assert forall d :: 0 <= d < |init| ==> init[d] == defs[d];
    assert defs[|init|] == last;
  }

  /** One definition loads without error exactly when it can be loaded. */
  lemma LoadDefinitionSucceeds(def: string, files: map<string, seq<Key>>, tables: map<int, Matrix>)
    ensures LoadDefinition(def, files, tables).status.Done? <==> DefinitionLoadable(def, files)
  {
    if Target(def).Some? && Source(def).Some? && Source(def).value in files {
      LoadKeysSucceeds(Source(def).value, files[Source(def).value], tables);
    }
  }
}
