/** The dE/dx identification task of pid_dedx/PiddEdx.cpp: before the run
    it loads the efficiency tables named by its definitions, keyed by
    species; for every event it replaces its output with the identified
    particles of the event's vertex tracks. */
module PiddEdxTask {
  import opened Wrappers
  import opened Kinematics
  import opened DedxIdentification
  import opened EfficiencyDefinitions
  import IntText
  import PidMatchingTask
  import EfficiencyCounts

  class PiddEdx {
    const oracles: Oracles
    const getter: Getter
    const definitions: seq<string>
    var efficiencies: map<int, Matrix>
    var recParticles: seq<RecParticle>

    /** A task with its definitions and getter, no table and no output yet. */
    constructor (o: Oracles, g: Getter, defs: seq<string>)
      ensures oracles == o && getter == g && definitions == defs
      ensures efficiencies == map[] && recParticles == []
    {
      oracles := o;
      getter := g;
      definitions := defs;
      efficiencies := map[];
      recParticles := [];
    }

    /** One event: the output is cleared and then holds the particles of
        the identified tracks, in track order. */
    method UserExec(tracks: seq<Track>)
      modifies this
      ensures recParticles == Identified(oracles, getter, tracks)
      ensures efficiencies == old(efficiencies)
    {
      recParticles := [];
      var i := 0;
      while i < |tracks|
        invariant 0 <= i <= |tracks|
        invariant recParticles == Identified(oracles, getter, tracks[..i])
        invariant efficiencies == old(efficiencies)
      {
        var t := tracks[i];
        var pid := TrackPid(oracles, getter, t);
        assert tracks[..i + 1][..i] == tracks[..i] && tracks[..i + 1][i] == t;
        if pid != Unidentified {
          recParticles := recParticles + [MakeParticle(oracles, t, pid)];
        }
        i := i + 1;
      }
      assert tracks[..|tracks|] == tracks;
    }

    /** The loop over the definitions. files maps each file name ROOT can
        read to the keys of that file. It stops at the first error, whose
        message it returns; the tables loaded until then stay loaded. */
    method InitEfficiencyDefinitions(files: map<string, seq<Key>>) returns (status: Status)
      modifies this
      ensures Loaded(efficiencies, status) == LoadAll(definitions, files, old(efficiencies))
      ensures recParticles == old(recParticles)
    {
      ghost var tables0 := efficiencies;
      var d := 0;
      while d < |definitions|
        invariant 0 <= d <= |definitions|
        invariant LoadAll(definitions[..d], files, tables0) == Loaded(efficiencies, Done)
        invariant recParticles == old(recParticles)
      {
        ghost var before := efficiencies;
        status := LoadDefinitionInto(definitions[d], files);
        LoadAllStep(definitions, files, tables0, d, before, Loaded(efficiencies, status));
        if status.Failed? {
          LoadAllStops(definitions, files, tables0, d + 1);
          return;
        }
        d := d + 1;
      }
      assert definitions[..|definitions|] == definitions;
      status := Done;
    }

    /** One definition: the target is checked first, then the source; the
        file is opened and its keys loaded. */
    method LoadDefinitionInto(def: string, files: map<string, seq<Key>>) returns (status: Status)
      modifies this
      ensures Loaded(efficiencies, status) == LoadDefinition(def, files, old(efficiencies))
      ensures recParticles == old(recParticles)
    {
      var tgt := Target(def);
      if tgt.None? {
        return Failed(NoTargetMessage);
      }
      var src := Source(def);
      if src.None? {
        return Failed(NoSourceMessage);
      }
      if src.value !in files {
        return Failed(EmptyFileMessage);
      }
      status := LoadFile(src.value, files[src.value]);
    }

    /** The loop over the keys of file src: every key named
        "efficiency_<pid>" must be a directory holding the efficiency, which
        is stored for pid unless pid already has a table. */
    method LoadFile(src: string, keys: seq<Key>) returns (status: Status)
      modifies this
      ensures Loaded(efficiencies, status) == LoadKeys(src, keys, old(efficiencies))
      ensures recParticles == old(recParticles)
    {
      ghost var tables0 := efficiencies;
      var i := 0;
      while i < |keys|
        invariant 0 <= i <= |keys|
        invariant LoadKeys(src, keys[..i], tables0) == Loaded(efficiencies, Done)
        invariant recParticles == old(recParticles)
      {
        var key := keys[i];
        assert keys[..i + 1][..i] == keys[..i];
        var captured := MatchEfficiencyDir(key.name);
        if captured.Some? {
          var pidStr := captured.value;
          var pid := IntText.ParseInt(pidStr);
          if pid.None? {
            status := Failed(BadCastMessage);
            LoadKeysStops(src, keys, tables0, i + 1);
            return;
          }
          if !key.isDirectory {
            status := Failed(NotDirectoryMessage);
            LoadKeysStops(src, keys, tables0, i + 1);
            return;
          }
          if EfficiencyMatrixName !in key.efficiencies {
            status := Failed(NoMatrixMessage + pidStr);
            LoadKeysStops(src, keys, tables0, i + 1);
            return;
          }
          if pid.value !in efficiencies {
            efficiencies := efficiencies[pid.value := Matrix(src, key.name)];
          }
        }
        i := i + 1;
      }
      assert keys[..|keys|] == keys;
      status := Done;
    }
  }

  /** An error ends the loop over the keys: the keys after it are not read. */
  lemma {:induction false} LoadKeysStops(src: string, keys: seq<Key>, tables: map<int, Matrix>, k: nat)
    requires k <= |keys| && LoadKeys(src, keys[..k], tables).status.Failed?
    ensures LoadKeys(src, keys, tables) == LoadKeys(src, keys[..k], tables)
    decreases |keys|
  {
    if k < |keys| {
      var init := keys[..|keys| - 1];
      assert init[..k] == keys[..k];
      LoadKeysStops(src, init, tables, k);
    } else {
      assert keys[..k] == keys;
    }
  }

  /** One more turn of the loop over the definitions: after the first d
      definitions left the tables t, the next one gives the state r. */
  lemma LoadAllStep(defs: seq<string>, files: map<string, seq<Key>>, tables: map<int, Matrix>, d: nat, t: map<int, Matrix>, r: Loaded)
    requires d < |defs|
    requires LoadAll(defs[..d], files, tables) == Loaded(t, Done)
    requires r == LoadDefinition(defs[d], files, t)
    ensures LoadAll(defs[..d + 1], files, tables) == r
  {
    assert defs[..d + 1][..d] == defs[..d];
  }

  /** An error ends the loop over the definitions: the definitions after it
      are not read. */
  lemma {:induction false} LoadAllStops(defs: seq<string>, files: map<string, seq<Key>>, tables: map<int, Matrix>, k: nat)
    requires k <= |defs| && LoadAll(defs[..k], files, tables).status.Failed?
    ensures LoadAll(defs, files, tables) == LoadAll(defs[..k], files, tables)
    decreases |defs|
  {
    if k < |defs| {
      var init := defs[..|defs| - 1];
      assert init[..k] == defs[..k];
      LoadAllStops(init, files, tables, k);
    } else {
      assert defs[..k] == defs;
    }
  }

  /** The "%d" text of an integer is made of '-' and digits. */
  lemma FormatIntPidChars(i: int)
    ensures |IntText.FormatInt(i)| > 0 && AllPidChars(IntText.FormatInt(i))
  {
    var n := if i < 0 then -i else i;
    IntText.NatDigitsRoundTrip(n);
    var digits := IntText.NatDigits(n);
    var s := IntText.FormatInt(i);
    if i < 0 {
      assert s == "-" + digits;
      forall k | 0 <= k < |s| ensures IsPidChar(s[k]) {
        if k > 0 {
          assert s[k] == digits[k - 1];
        }
      }
    } else {
      assert s == digits;
      forall k | 0 <= k < |s| ensures IsPidChar(s[k]) {
        assert IntText.IsDigit(digits[k]);
      }
    }
  }

  /** The directory the matching task writes for species pdg is recognised
      as that species' directory, and once it holds the efficiency the
      matching task writes into it, it loads as pdg's table unless pdg
      already has one. */
  lemma WrittenDirectoryLoads(src: string, pdg: int, effs: set<string>, tables: map<int, Matrix>)
    requires PidMatchingTask.VtxSimCentrYPtName in effs
    ensures KeyPid(PidMatchingTask.EfficiencyDirName(pdg)) == Some(pdg)
    ensures var key := Key(PidMatchingTask.EfficiencyDirName(pdg), true, effs);
      LoadKey(src, key, tables) ==
      Loaded(if pdg in tables then tables else tables[pdg := Matrix(src, key.name)], Done)
  {
    var digits := IntText.FormatInt(pdg);
    FormatIntPidChars(pdg);
    MatchEfficiencyDirComplete(digits);
    IntText.FormatParseRoundTrip(pdg);
  }

  /** The directory the matching task writes for species pdg, holding the
      efficiencies effs. */
  function WrittenKey(pdg: int, effs: set<string>): Key {
    Key(PidMatchingTask.EfficiencyDirName(pdg), true, effs)
  }

  /** The directories written for the species pdgs, in that order. */
  function WrittenKeys(pdgs: seq<int>, effs: set<string>): (keys: seq<Key>)
    ensures |keys| == |pdgs|
    decreases |pdgs|
  {
    if pdgs == [] then [] else WrittenKeys(pdgs[..|pdgs| - 1], effs) + [WrittenKey(pdgs[|pdgs| - 1], effs)]
  }

  /** The loop over the keys with one more key at the end. */
  lemma LoadKeysSnoc(src: string, keys: seq<Key>, key: Key, tables: map<int, Matrix>)
    ensures LoadKeys(src, keys + [key], tables) ==
      var before := LoadKeys(src, keys, tables);
      if before.status.Failed? then before else LoadKey(src, key, before.tables)
  {
    assert (keys + [key])[..|keys|] == keys;
  }

  /** Loading directories written by the matching task never fails; it adds
      every species written, each with the table of its own directory
      (the first one, should a species be written twice). */
  lemma {:induction false} WrittenDirectoriesLoad(src: string, pdgs: seq<int>, effs: set<string>, tables: map<int, Matrix>)
    requires PidMatchingTask.VtxSimCentrYPtName in effs
    ensures var r := LoadKeys(src, WrittenKeys(pdgs, effs), tables);
      r.status.Done? &&
      (forall pdg :: pdg in r.tables <==> pdg in tables || pdg in pdgs) &&
      (forall pdg :: pdg in r.tables ==>
        r.tables[pdg] == if pdg in tables then tables[pdg] else Matrix(src, PidMatchingTask.EfficiencyDirName(pdg)))
    decreases |pdgs|
  {
    if pdgs != [] {
      var init := pdgs[..|pdgs| - 1];
      var last := pdgs[|pdgs| - 1];
      WrittenDirectoriesLoad(src, init, effs, tables);
      var before := LoadKeys(src, WrittenKeys(init, effs), tables);
      LoadKeysSnoc(src, WrittenKeys(init, effs), WrittenKey(last, effs), tables);
      WrittenDirectoryLoads(src, last, effs, before.tables);
      var m := Matrix(src, PidMatchingTask.EfficiencyDirName(last));
      var after := if last in before.tables then before.tables else before.tables[last := m];
      var key := WrittenKey(last, effs);
      assert key == Key(PidMatchingTask.EfficiencyDirName(last), true, effs);
      assert LoadKey(src, key, before.tables) == Loaded(after, Done);
      assert WrittenKeys(pdgs, effs) == WrittenKeys(init, effs) + [key];
      assert LoadKeys(src, WrittenKeys(pdgs, effs), tables) == Loaded(after, Done);
      LastSplitsMembers(pdgs);
      forall pdg
        ensures pdg in after <==> pdg in tables || pdg in pdgs
        ensures pdg in after ==>
          after[pdg] == if pdg in tables then tables[pdg] else Matrix(src, PidMatchingTask.EfficiencyDirName(pdg))
      {
      }
    }
  }

  /** The members of a non-empty sequence are those of all but its last
      entry, and that entry. */
  lemma LastSplitsMembers<T>(xs: seq<T>)
    requires xs != []
    ensures forall x :: x in xs <==> x in xs[..|xs| - 1] || x == xs[|xs| - 1]
  {
    assert xs == xs[..|xs| - 1] + [xs[|xs| - 1]];
  }

  /** The directory the matching task writes, when validating, beside the
      directory of species pdg. */
  function ValidatedKey(pdg: int, contents: set<string>): Key {
    Key("validated_eff_" + IntText.FormatInt(pdg), true, contents)
  }

  /** The directory of the charged-hadron efficiencies. */
  function ChargedHadronsKey(contents: set<string>): Key {
    Key("efficiency_charged_hadrons", true, contents)
  }

  /** A key the pattern does not match is skipped: it leaves the tables as
      they are and raises no error. */
  lemma UnmatchedKeySkipped(src: string, key: Key, tables: map<int, Matrix>)
    requires MatchEfficiencyDir(key.name).None?
    ensures LoadKey(src, key, tables) == Loaded(tables, Done)
  {
  }

  /** Neither the validation directories nor the charged-hadron directory
      match the pattern of species directories. */
  lemma OtherDirectoriesUnmatched(pdg: int, contents: set<string>)
    ensures MatchEfficiencyDir(ValidatedKey(pdg, contents).name).None?
    ensures MatchEfficiencyDir(ChargedHadronsKey(contents).name).None?
  {
    var v := ValidatedKey(pdg, contents).name;
    assert v[0] == 'v';
    var c := ChargedHadronsKey(contents).name;
    assert c[|EfficiencyPrefix|] == 'c';
  }

  /** The species directories in the order the matching task creates
      them: each one followed, when validating, by its validation
      directory. */
  function WrittenSpeciesKeys(pdgs: seq<int>, effs: set<string>, validating: bool, validated: set<string>): seq<Key>
    decreases |pdgs|
  {
    if pdgs == [] then []
    else
      var last := pdgs[|pdgs| - 1];
      WrittenSpeciesKeys(pdgs[..|pdgs| - 1], effs, validating, validated) + [WrittenKey(last, effs)] +
      (if validating then [ValidatedKey(last, validated)] else [])
  }

  /** The keys of the whole file the matching task writes: the species
      directories, then the charged-hadron directory. */
  function WrittenFileKeys(pdgs: seq<int>, effs: set<string>, validating: bool, validated: set<string>, charged: set<string>): seq<Key> {
    WrittenSpeciesKeys(pdgs, effs, validating, validated) + [ChargedHadronsKey(charged)]
  }

  /** Loading the written file reads the same tables as loading its species
      directories alone: the other directories are skipped. */
  lemma {:induction false} WrittenFileSkipsOthers(src: string, pdgs: seq<int>, effs: set<string>, validating: bool, validated: set<string>, charged: set<string>, tables: map<int, Matrix>)
    ensures LoadKeys(src, WrittenFileKeys(pdgs, effs, validating, validated, charged), tables) ==
      LoadKeys(src, WrittenKeys(pdgs, effs), tables)
  {
    WrittenSpeciesSkipsValidated(src, pdgs, effs, validating, validated, tables);
    var species := WrittenSpeciesKeys(pdgs, effs, validating, validated);
    LoadKeysSnoc(src, species, ChargedHadronsKey(charged), tables);
    OtherDirectoriesUnmatched(0, charged);
    var before := LoadKeys(src, species, tables);
    if before.status.Done? {
      UnmatchedKeySkipped(src, ChargedHadronsKey(charged), before.tables);
    }
  }

  /** The validation directories between the species directories are
      skipped. */
  lemma {:induction false} WrittenSpeciesSkipsValidated(src: string, pdgs: seq<int>, effs: set<string>, validating: bool, validated: set<string>, tables: map<int, Matrix>)
    ensures LoadKeys(src, WrittenSpeciesKeys(pdgs, effs, validating, validated), tables) ==
      LoadKeys(src, WrittenKeys(pdgs, effs), tables)
    decreases |pdgs|
  {
    if pdgs != [] {
      var init := pdgs[..|pdgs| - 1];
      var last := pdgs[|pdgs| - 1];
      WrittenSpeciesSkipsValidated(src, init, effs, validating, validated, tables);
      var prefix := WrittenSpeciesKeys(init, effs, validating, validated) + [WrittenKey(last, effs)];
      LoadKeysSnoc(src, WrittenSpeciesKeys(init, effs, validating, validated), WrittenKey(last, effs), tables);
      LoadKeysSnoc(src, WrittenKeys(init, effs), WrittenKey(last, effs), tables);
      if validating {
        LoadKeysSnoc(src, prefix, ValidatedKey(last, validated), tables);
        OtherDirectoriesUnmatched(last, validated);
        var before := LoadKeys(src, prefix, tables);
        if before.status.Done? {
          UnmatchedKeySkipped(src, ValidatedKey(last, validated), before.tables);
        }
      } else {
        assert WrittenSpeciesKeys(pdgs, effs, validating, validated) == prefix;
      }
    }
  }

  /** Loading the file the matching task writes for its three species,
      with or without validation directories and with the charged-hadron
      directory, gives each species exactly one table, read from its own
      directory. */
  lemma WrittenFileLoads(src: string, effs: set<string>, validating: bool, validated: set<string>, charged: set<string>)
    requires PidMatchingTask.VtxSimCentrYPtName in effs
    ensures var r := LoadKeys(src, WrittenFileKeys(EfficiencyCounts.Species, effs, validating, validated, charged), map[]);
      r.status.Done? &&
      (forall pdg :: pdg in r.tables <==> pdg in EfficiencyCounts.Species) &&
      (forall pdg :: pdg in r.tables ==> r.tables[pdg] == Matrix(src, PidMatchingTask.EfficiencyDirName(pdg)))
  {
    WrittenFileSkipsOthers(src, EfficiencyCounts.Species, effs, validating, validated, charged, map[]);
    WrittenDirectoriesLoad(src, EfficiencyCounts.Species, effs, map[]);
  }
}
