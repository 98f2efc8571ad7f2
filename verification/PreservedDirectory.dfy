/** The directory of preserved deploy files as seeding, rollback and the editor change it, call by
    call (assertDeployFile, preparePreservedFiles and rollbackPreservedFiles in
    src/deploy-files.ts). */
module PreservedDirectory {

  import opened PreservedFiles

  class Directory {
    var names: map<Name, Ino>
    var contents: map<Ino, Contents>
    var journal: seq<SeedRecord>
    var held: map<Key, Ino>

    ghost var owner: map<Ino, Key>
    ghost var newest: map<Key, Ino>
    ghost var saved: map<Key, Contents>
    ghost var touched: set<Key>
    ghost var calls: seq<(map<Name, Ino>, map<Name, Ino>)>
    ghost var placed: set<Ino>

    /** How many calls have failed for another reason than what they found. */
    ghost var faults: nat

    /** How many operations the editor has carried out. */
    ghost var acts: nat

    ghost function Now(): View
      reads this
    {
      View(names, contents, journal, held, owner, newest, saved, touched, calls, placed)
    }

    // ---------- the editor ----------

    method EditorOpen(key: Key)
      modifies this`held, this`touched
      ensures Now() == Opened(old(Now()), key)
    {
      if Live(key) in names {
        held, touched := held[key := names[Live(key)]], touched + {key};
      }
    }

    method EditorSave(key: Key, text: Contents)
      modifies this`contents, this`newest, this`saved, this`touched
      ensures Now() == SavedThrough(old(Now()), key, text)
    {
      if key in held {
        contents, newest, saved := contents[held[key] := text], newest[key := held[key]], saved[key := text];
        touched := touched + {key};
      }
    }

    method EditorReplace(key: Key, text: Contents) returns (ino: Ino)
      modifies this
      ensures faults == old(faults) && acts == old(acts)
      ensures ino !in old(contents) && Now() == ReplacedBy(old(Now()), key, text, ino)
    {
      UnusedExists(contents.Keys);
      ino :| ino !in contents.Keys;
      names, contents, owner := names[Live(key) := ino], contents[ino := text], owner[ino := key];
      held, newest, saved := held[key := ino], newest[key := ino], saved[key := text];
      touched := touched + {key};
    }

    method EditorDelete(key: Key)
      modifies this
      ensures faults == old(faults) && acts == old(acts)
      ensures Now() == DeletedBy(old(Now()), key)
    {
      names, held, newest, saved := names - {Live(key)}, held - {key}, newest - {key}, saved - {key};
      touched := touched + {key};
    }

    /** One operation of the editor, or none. */
    method EditorOperation()
      requires Valid(Now())
      modifies this
      ensures faults == old(faults) && old(acts) <= acts && (acts == old(acts) ==> Now() == old(Now()))
      ensures Valid(Now()) && EditorActed(old(Now()), Now())
    {
      hide Valid, EditorActed, Opened, SavedThrough, ReplacedBy, DeletedBy;
      ghost var was := Now();
      var key: Key := *;
      var text: Contents := *;
      var operation: nat := *;
      if operation <= 3 { acts := acts + 1; }
      if operation == 0 {
        EditorOpen(key);
        OpenedKeeps(was, key);
      } else if operation == 1 {
        EditorSave(key, text);
        SavedKeeps(was, key, text);
      } else if operation == 2 {
        var ino := EditorReplace(key, text);
        ReplacedKeeps(was, key, text, ino);
      } else if operation == 3 {
        EditorDelete(key);
        DeletedKeeps(was, key);
      } else {
        EditorIdle(was);
      }
    }

    /** Any number of editor operations. */
    method EditorTurn()
      requires Valid(Now())
      modifies this
      ensures faults == old(faults) && old(acts) <= acts && (acts == old(acts) ==> Now() == old(Now()))
      ensures Valid(Now()) && EditorActed(old(Now()), Now())
    {
      hide Valid, EditorActed;
      EditorIdle(Now());
      var budget: nat := *;
      while budget > 0
        invariant faults == old(faults) && old(acts) <= acts && (acts == old(acts) ==> Now() == old(Now()))
        invariant Valid(Now()) && EditorActed(old(Now()), Now())
      {
        ghost var was := Now();
        EditorOperation();
        EditorActedTwice(old(Now()), was, Now());
        budget := budget - 1;
      }
    }

    // ---------- system calls ----------

    method Lstat(name: Name) returns (stat: Stat)
      modifies this`faults
      ensures faults == old(faults) + if stat.StatFailed? then 1 else 0
      ensures stat.Found? ==> name in names && names[name] == stat.ino && stat.links == |set n | n in names && names[n] == stat.ino|
      ensures stat.Absent? ==> name !in names
    {
      var fails: bool := *;
      if fails {
        faults := faults + 1;
        return StatFailed;
      }
      if name !in names { return Absent; }
      return Found(names[name], |set n | n in names && names[n] == names[name]|);
    }

    /** rename(2) of a live file to a private name. */
    method Claim(key: Key, token: nat) returns (errno: Errno)
      requires Valid(Now()) && Rollback(token) !in names
      modifies this`names, this`calls, this`faults
      ensures faults == old(faults) + if errno == OtherError then 1 else 0
      ensures Valid(Now()) && Only(old(Now()), Now(), key)
      ensures errno == Done ==> Live(key) in old(names) && names == Claimed(old(names), key, token)
      ensures errno == Done || errno == NoEntry || errno == OtherError
      ensures errno == NoEntry ==> Live(key) !in names
      ensures errno != Done ==> names == old(names)
    {
      hide Valid, Only;
      OnlyItself(Now(), key);
      var fails: bool := *;
      if fails {
        faults := faults + 1;
        return OtherError;
      }
      if Live(key) !in names { return NoEntry; }
      ClaimedKeeps(Now(), key, token);
      ClaimedOnly(Now(), key, token);
      calls := calls + [(names, Claimed(names, key, token))];
      names := Claimed(names, key, token);
      return Done;
    }

    /** link(2): it never replaces an existing name. */
    method LinkLive(source: Name, key: Key, ghost seeding: bool) returns (errno: Errno)
      requires Valid(Now()) && source in names && owner[names[source]] == key
      requires seeding ==> Journaled(journal, names[source])
      modifies this`names, this`calls, this`placed, this`faults
      ensures faults == old(faults) + if errno == OtherError then 1 else 0
      ensures Valid(Now()) && Only(old(Now()), Now(), key)
      ensures errno == Done ==> Live(key) !in old(names) && names == old(names)[Live(key) := old(names)[source]]
      ensures errno == Done || errno == Exists || errno == OtherError
      ensures errno == Exists ==> Live(key) in names
      ensures errno != Done ==> names == old(names)
    {
      hide Only;
      OnlyItself(Now(), key);
      var fails: bool := *;
      if fails {
        faults := faults + 1;
        return OtherError;
      }
      if Live(key) in names { return Exists; }
      ghost var placed' := placed + (if seeding then {names[source]} else {});
      LinkedKeeps(Now(), key, names[source], placed');
      LinkedOnly(Now(), key, names[source], placed');
      placed := placed';
      calls := calls + [(names, names[Live(key) := names[source]])];
      names := names[Live(key) := names[source]];
      return Done;
    }

    /** rm of a private name, with force. */
    method RemovePrivate(name: Name, ghost key: Key) returns (errno: Errno)
      requires Valid(Now()) && !name.Live? && (name in names ==> owner[names[name]] == key)
      requires name.Rollback? && name in names ==> Current(Now(), key, names[name])
      modifies this`names, this`calls, this`faults
      ensures faults == old(faults) + if errno == OtherError then 1 else 0
      ensures Valid(Now()) && Calm(old(Now()), Now(), key)
      ensures names == old(names) || names == old(names) - {name}
      ensures errno == Done || errno == OtherError
      ensures errno == Done ==> names == old(names) - {name}
    {
      hide Only;
      OnlyItself(Now(), key);
      var fails: bool := *;
      if fails {
        faults := faults + 1;
        return OtherError;
      }
      RemovedKeeps(Now(), name, key);
      RemovedOnly(Now(), name, key);
      calls := calls + [(names, names - {name})];
      names := names - {name};
      return Done;
    }

    /** An editor turn, and what it means for one file and a seed of it. */
    method Turn(key: Key, ghost seed: SeedRecord)
      requires Valid(Now()) && seed.key == key
      modifies this
      ensures faults == old(faults) && old(acts) <= acts && (acts == old(acts) ==> Now() == old(Now()))
      ensures Valid(Now()) && EditorActed(old(Now()), Now()) && Calm(old(Now()), Now(), key)
      ensures key !in touched && SeedLive(old(Now()), seed) ==> SeedLive(Now(), seed)
      ensures key !in touched && Intact(old(Now()), seed) ==> Intact(Now(), seed)
    {
      hide Valid, EditorActed, Calm, SeedLive, Intact;
      EditorTurn();
      EditorCalm(old(Now()), Now(), key);
      if key !in touched { SeedStays(old(Now()), Now(), seed); }
    }

    // ---------- the check of a live file ----------

    /** assertPreservedDeployFile: the live file must be a regular file with one name.  A second
        name left by an interrupted seeding or rollback is removed first. */
    method AssertPreserved(key: Key, ghost seed: SeedRecord) returns (stat: Stat)
      requires Valid(Now()) && seed.key == key
      modifies this
      ensures old(faults) <= faults && old(acts) <= acts
      ensures acts == old(acts) ==> Still(old(Now()), Now()) && (stat.Found? ==> OneName(Now(), key))
      ensures Fit(old(Now()), seed) && key !in touched && faults == old(faults) ==> !stat.StatFailed? && OneName(Now(), key)
      ensures Valid(Now()) && Calm(old(Now()), Now(), key)
      ensures stat.Absent? ==> Live(key) !in names
      ensures stat.Found? ==> LiveAt(Now(), key, stat.ino)
      ensures SeedLive(old(Now()), seed) && key !in touched ==>
                SeedLive(Now(), seed) && (!stat.StatFailed? ==> stat == Found(seed.ino, 1) && Intact(Now(), seed))
    {
      hide Valid, Calm, SeedLive, Intact;
      CalmItself(Now(), key);
      stat := Lstat(Live(key));
      SeedIsLive(Now(), seed);
      if OneName(Now(), key) && Live(key) in names { OneNameLinks(Now(), key); }
      if !stat.Found? { return; }
      if stat.links == 2 {
        stat := RecoverLink(key, stat, seed);
      } else if SeedLive(Now(), seed) {
        SeedLinks(Now(), seed);
      }
      if Intact(Now(), seed) { IntactHasOneName(Now(), seed); }
      if stat.Found? && stat.links != 1 { return StatFailed; }
      if stat.Found? && stat.links == |set n | n in names && names[n] == stat.ino| { LinksOneName(Now(), key, stat.ino); }
    }

    /** The search for the second name among the private names of the directory. */
    method RecoverLink(key: Key, first: Stat, ghost seed: SeedRecord) returns (stat: Stat)
      requires Valid(Now()) && first.Found? && LiveAt(Now(), key, first.ino) && seed.key == key
      requires first.links == 2 == |set n | n in names && names[n] == first.ino|
      modifies this
      ensures old(faults) <= faults && old(acts) <= acts
      ensures acts == old(acts) ==> Still(old(Now()), Now())
      ensures acts == old(acts) && stat.Found? && stat.links == 1 ==> OneName(Now(), key)
      ensures SeedLive(old(Now()), seed) && key !in touched && faults == old(faults) ==> !stat.StatFailed?
      ensures Valid(Now()) && Calm(old(Now()), Now(), key)
      ensures stat.Absent? ==> Live(key) !in names
      ensures stat.Found? && stat.links == 1 ==> LiveAt(Now(), key, stat.ino)
      ensures SeedLive(old(Now()), seed) && key !in touched ==>
                SeedLive(Now(), seed) && (!stat.StatFailed? ==> stat == Found(seed.ino, 1) && Intact(Now(), seed))
    {
      hide Valid, EditorActed, Calm, SeedLive, Intact, Current, Still, OneName;
      ghost var leftover: Name := Seed(0);
      ghost var v := Now();
      SeedIsLive(v, seed);
      if SeedLive(v, seed) { leftover := Leftover(v, seed); }
      LiveOwner(v, key);
      LiveIsCurrent(v, key, first.ino);
      Turn(key, seed);
      CurrentKept(v, Now(), key, first.ino);
      PrivateKept(v, Now(), leftover);
      StillSame(v, Now());
      ghost var v1 := Now();
      stat := SearchLink(key, first, leftover, seed);
      CalmTwice(v, v1, Now(), key);
      TouchedGrows(v1, Now(), key);
      StillTwice(v, v1, Now());
    }

    method SearchLink(key: Key, first: Stat, ghost leftover: Name, ghost seed: SeedRecord) returns (stat: Stat)
      requires Valid(Now()) && seed.key == key && first.Found? && first.links == 2 && leftover.Seed?
      requires first.ino in owner && owner[first.ino] == key && Current(Now(), key, first.ino)
      modifies this
      ensures old(faults) <= faults && old(acts) <= acts && (acts == old(acts) ==> Still(old(Now()), Now()))
      ensures acts == old(acts) && stat.Found? && stat.links == 1 ==> OneName(Now(), key)
      ensures Valid(Now()) && Calm(old(Now()), Now(), key)
      ensures stat.Absent? ==> Live(key) !in names
      ensures stat.Found? && stat.links == 1 ==> LiveAt(Now(), key, stat.ino)
      ensures key !in touched && first.ino == seed.ino && LeftoverOf(old(Now()), seed, leftover) ==>
                && SeedLive(Now(), seed) && (stat.StatFailed? ==> old(faults) < faults)
                && (!stat.StatFailed? ==> stat == Found(seed.ino, 1) && Intact(Now(), seed))
    {
      hide Valid, EditorActed, Calm, SeedLive, Intact, Current, Still, OneName;
      ghost var v := Now();
      CalmItself(v, key);
      StillSame(v, v);
      stat := first;
      var entries := set n | n in names && !n.Live?;
      while entries != {}
        invariant faults == old(faults) && Valid(Now()) && Calm(v, Now(), key) && stat == first
        invariant old(acts) <= acts && (acts == old(acts) ==> Still(v, Now()))
        invariant first.ino in owner && owner[first.ino] == key && Current(Now(), key, first.ino)
        invariant forall n :: n in entries ==> !n.Live?
        invariant key !in touched && first.ino == seed.ino && LeftoverOf(v, seed, leftover) ==> LeftoverOf(Now(), seed, leftover) && leftover in entries
      {
        var entry :| entry in entries;
        entries := entries - {entry};
        ghost var v1 := Now();
        var candidate := Probe(key, entry, first.ino, leftover, seed);
        CalmTwice(v, v1, Now(), key);
        TouchedGrows(v1, Now(), key);
        StillTwice(v, v1, Now());
        if candidate.StatFailed? { return StatFailed; }
        if candidate.Found? && candidate.ino == first.ino {
          ghost var v2 := Now();
          stat := RemoveLink(key, entry, first.ino, seed, leftover);
          StillTwice(v, v2, Now());
          CalmTwice(v, v2, Now(), key);
          TouchedGrows(v2, Now(), key);
          return;
        }
      }
    }

    /** One private name is looked at. */
    method Probe(key: Key, entry: Name, ghost ino: Ino, ghost leftover: Name, ghost seed: SeedRecord) returns (candidate: Stat)
      requires Valid(Now()) && seed.key == key && leftover.Seed? && ino in owner && owner[ino] == key && Current(Now(), key, ino)
      modifies this
      ensures faults == old(faults) + if candidate.StatFailed? then 1 else 0
      ensures old(acts) <= acts && (acts == old(acts) ==> Still(old(Now()), Now()))
      ensures Valid(Now()) && Calm(old(Now()), Now(), key)
      ensures ino in owner && owner[ino] == key && Current(Now(), key, ino)
      ensures candidate.Found? ==> entry in names && names[entry] == candidate.ino
      ensures candidate.Absent? ==> entry !in names
      ensures leftover in names <==> leftover in old(names)
      ensures leftover in names ==> names[leftover] == old(names)[leftover]
      ensures key !in touched && SeedLive(old(Now()), seed) ==> SeedLive(Now(), seed)
    {
      hide Valid, EditorActed, Calm, SeedLive, Intact, Current, Still;
      ghost var v := Now();
      Turn(key, seed);
      CurrentKept(v, Now(), key, ino);
      PrivateKept(v, Now(), leftover);
      StillSame(v, Now());
      candidate := Lstat(entry);
    }

    method RemoveLink(key: Key, entry: Name, ino: Ino, ghost seed: SeedRecord, ghost leftover: Name) returns (stat: Stat)
      requires Valid(Now()) && seed.key == key && !entry.Live? && entry in names && names[entry] == ino
      requires ino in owner && owner[ino] == key && Current(Now(), key, ino)
      modifies this
      ensures old(faults) <= faults && (stat.StatFailed? ==> old(faults) < faults)
      ensures old(acts) <= acts && (acts == old(acts) ==> Still(old(Now()), Now()))
      ensures stat.Found? && stat.links == 1 ==> OneName(Now(), key)
      ensures Valid(Now()) && Calm(old(Now()), Now(), key)
      ensures stat.Absent? ==> Live(key) !in names
      ensures stat.Found? ==> LiveAt(Now(), key, stat.ino)
      ensures (old(SeedLive(Now(), seed) && leftover.Seed? && leftover in names && names[leftover] == seed.ino && ino == seed.ino)
               && key !in touched) ==> SeedLive(Now(), seed) && (!stat.StatFailed? ==> stat == Found(seed.ino, 1) && Intact(Now(), seed))
    {
      hide Valid, EditorActed, Calm, SeedLive, Intact, Current, Still, OneName;
      ghost var v := Now();
      Turn(key, seed);
      CurrentKept(v, Now(), key, ino);
      PrivateKept(v, Now(), entry);
      if leftover.Seed? { PrivateKept(v, Now(), leftover); }
      ghost var v1 := Now();
      var removed := RemovePrivate(entry, key);
      CalmTwice(v, v1, Now(), key);
      StillSame(v, v1);
      StillWithout(v1, Now(), entry);
      StillTwice(v, v1, Now());
      if SeedLive(v1, seed) && leftover.Seed? && leftover in v1.names && v1.names[leftover] == seed.ino && ino == seed.ino {
        if names == v1.names {
          SameNamesLive(v1, Now(), seed);
        } else {
          OnlyLeftover(v1, seed, leftover, entry);
          LeftoverRemoved(v1, Now(), seed, entry);
          IntactIsLive(Now(), seed);
        }
      }
      TouchedGrows(v1, Now(), key);
      if removed != Done { return StatFailed; }
      if Intact(Now(), seed) { IntactIsLive(Now(), seed); }
      ghost var v2 := Now();
      stat := LookAgain(key, seed);
      CalmTwice(v, v2, Now(), key);
      TouchedGrows(v2, Now(), key);
      StillTwice(v, v2, Now());
      if Intact(Now(), seed) { IntactIsLive(Now(), seed); }
    }

    /** The live file is looked at once more. */
    method LookAgain(key: Key, ghost seed: SeedRecord) returns (stat: Stat)
      requires Valid(Now()) && seed.key == key
      modifies this
      ensures old(faults) <= faults && (stat.StatFailed? ==> old(faults) < faults)
      ensures old(acts) <= acts && (acts == old(acts) ==> Still(old(Now()), Now()))
      ensures stat.Found? && stat.links == 1 ==> OneName(Now(), key)
      ensures Valid(Now()) && Calm(old(Now()), Now(), key)
      ensures stat.Absent? ==> Live(key) !in names
      ensures stat.Found? ==> LiveAt(Now(), key, stat.ino)
      ensures Intact(old(Now()), seed) && key !in touched ==> Intact(Now(), seed) && (!stat.StatFailed? ==> stat == Found(seed.ino, 1))
    {
      hide Valid, EditorActed, Calm, Intact, Still, OneName;
      ghost var v := Now();
      Turn(key, seed);
      StillSame(v, Now());
      stat := Lstat(Live(key));
      if stat.Found? && stat.links == 1 { LinksOneName(Now(), key, stat.ino); }
      SeedIsLive(Now(), seed);
      if Intact(Now(), seed) { IntactLinks(Now(), seed); }
    }

    // ---------- rollback ----------

    lemma UnusedToken()
      ensures exists token: nat :: Rollback(token) !in names
    {
      UnusedExists(set n | n in names && n.Rollback? :: n.token);
      var token: nat :| token !in (set n | n in names && n.Rollback? :: n.token);
      assert Rollback(token) !in names;
    }

    /** One seed of rollbackPreservedFiles; false is an error other than ENOENT, which is thrown.  A
        seed that nobody touches leaves the live name and is retained, also when a temporary is still
        linked to it; a live name that is not the seed's is left alone, and so is a seed that the
        editor has changed.  A file that the claim has captured in spite of that is put back. */
    method RollbackSeed(seed: SeedRecord) returns (ok: bool, ghost capture: Capture)
      requires Valid(Now())
      modifies this
      ensures old(faults) <= faults && (!ok && Fit(old(Now()), seed) && seed.key !in touched ==> old(faults) < faults)
      ensures Valid(Now()) && Only(old(Now()), Now(), seed.key) && journal == old(journal)
      ensures ok && SeedLive(old(Now()), seed) && seed.key !in touched ==> Left(Now(), seed)
      ensures !LiveAt(old(Now()), seed.key, seed.ino) && seed.key !in touched ==> SameLive(old(Now()), Now(), seed.key)
      ensures old(acts) <= acts && (acts == old(acts) ==> Beside(old(Now()), Now(), seed.key))
      ensures acts == old(acts) && !Unchanged(old(Now()), seed) ==> Still(old(Now()), Now())
      ensures capture.Captured? && acts == capture.acts && faults == old(faults) && !Unchanged(capture.view, seed) ==> Still(capture.view, Now())
    {
      hide Valid, EditorActed, Calm, Only, SeedLive, Intact, Left, Still, Beside, Unchanged, OneName;
      capture := NoCapture;
      ghost var v := Now();
      var checked := AssertPreserved(seed.key, seed);
      CalmIsOnly(v, Now(), seed.key);
      CalmSame(v, Now(), seed.key);
      StillIsBeside(v, Now(), seed.key);
      if checked == Absent { return true, capture; }
      if checked == StatFailed { return false, capture; }
      ghost var v1 := Now();
      Turn(seed.key, seed);
      CalmTwice(v, v1, Now(), seed.key);
      CalmIsOnly(v, Now(), seed.key);
      TouchedGrows(v1, Now(), seed.key);
      CalmSame(v, Now(), seed.key);
      SeedIsLive(v, seed);
      SeedIsLive(Now(), seed);
      if OneName(v1, seed.key) && seed.key !in touched { OneNameStays(v1, Now(), seed.key); }
      // Opening the live file fixes the inode that is inspected from here on.
      var found := Lstat(Live(seed.key));
      if found == Absent { return true, capture; }
      if found == StatFailed { return false, capture; }
      ghost var v2 := Now();
      StillSame(v1, v2);
      StillTwice(v, v1, v2);
      StillIsBeside(v, v2, seed.key);
      if Still(v, v2) { StillSame(v, v2); StillUnchanged(v, v2, seed); }
      ok, capture := InspectSeed(seed, found.ino);
      StillTwice(v, v2, Now());
      BesideTwice(v, v2, Now(), seed.key);
      OnlyTwice(v, v2, Now(), seed.key);
      TouchedGrows(v2, Now(), seed.key);
      SameLiveTwice(v, v2, Now(), seed.key);
    }

    /** The inspection through the open file. */
    method InspectSeed(seed: SeedRecord, found: Ino) returns (ok: bool, ghost capture: Capture)
      requires Valid(Now()) && LiveAt(Now(), seed.key, found)
      modifies this
      ensures old(faults) <= faults && (!ok && OneName(old(Now()), seed.key) && seed.key !in touched ==> old(faults) < faults)
      ensures Valid(Now()) && Only(old(Now()), Now(), seed.key) && journal == old(journal)
      ensures ok && Intact(old(Now()), seed) && seed.key !in touched ==> Left(Now(), seed)
      ensures found != seed.ino && seed.key !in touched ==> SameLive(old(Now()), Now(), seed.key)
      ensures old(acts) <= acts && (acts == old(acts) ==> Beside(old(Now()), Now(), seed.key))
      ensures acts == old(acts) && !(Unchanged(old(Now()), seed) && OneName(old(Now()), seed.key)) ==> Still(old(Now()), Now())
      ensures capture.Captured? && acts == capture.acts && faults == old(faults) && !Unchanged(capture.view, seed) ==> Still(capture.view, Now())
    {
      hide Valid, EditorActed, Calm, Only, SeedLive, Intact, Left, OneName, Still, Beside;
      capture := NoCapture;
      ghost var v := Now();
      SeedIsLive(v, seed);
      Turn(seed.key, seed);
      CalmIsOnly(v, Now(), seed.key);
      TouchedGrows(v, Now(), seed.key);
      if Intact(Now(), seed) { IntactLinks(Now(), seed); }
      if OneName(v, seed.key) && seed.key !in touched { OneNameStays(v, Now(), seed.key); }
      var links := |set n | n in names && names[n] == found|;
      CalmSame(v, Now(), seed.key);
      StillSame(v, Now());
      StillIsBeside(v, Now(), seed.key);
      if links == 1 && LiveAt(Now(), seed.key, found) { LinksOneName(Now(), seed.key, found); }
      if found != seed.ino || links != 1 { return true, capture; }
      ghost var v1 := Now();
      if Still(v, v1) { StillUnchanged(v, v1, seed); }
      ok, capture := InspectContents(seed);
      OnlyTwice(v, v1, Now(), seed.key);
      TouchedGrows(v1, Now(), seed.key);
      StillTwice(v, v1, Now());
      BesideTwice(v, v1, Now(), seed.key);
    }

    /** What the open file holds is compared with the seed's digest. */
    method InspectContents(seed: SeedRecord) returns (ok: bool, ghost capture: Capture)
      requires Valid(Now())
      modifies this
      ensures old(faults) <= faults
      ensures !ok && OneName(old(Now()), seed.key) && LiveAt(old(Now()), seed.key, seed.ino) && seed.key !in touched ==> old(faults) < faults
      ensures Valid(Now()) && Only(old(Now()), Now(), seed.key) && journal == old(journal)
      ensures ok && Intact(old(Now()), seed) && seed.key !in touched ==> Left(Now(), seed)
      ensures old(acts) <= acts && (acts == old(acts) ==> Beside(old(Now()), Now(), seed.key))
      ensures acts == old(acts) && LiveAt(old(Now()), seed.key, seed.ino) && !Unchanged(old(Now()), seed) ==> Still(old(Now()), Now())
      ensures capture.Captured? && acts == capture.acts && faults == old(faults) && !Unchanged(capture.view, seed) ==> Still(capture.view, Now())
    {
      hide Valid, EditorActed, Calm, Only, SeedLive, Intact, Left, OneName, Still, Beside;
      capture := NoCapture;
      ghost var v := Now();
      Turn(seed.key, seed);
      CalmIsOnly(v, Now(), seed.key);
      TouchedGrows(v, Now(), seed.key);
      IntactHolds(Now(), seed);
      StillSame(v, Now());
      StillIsBeside(v, Now(), seed.key);
      if seed.ino !in contents || contents[seed.ino] != seed.digest { return true, capture; }
      ghost var v1 := Now();
      if OneName(v, seed.key) && seed.key !in touched { OneNameStays(v, v1, seed.key); }
      CalmSame(v, v1, seed.key);
      if LiveAt(v, seed.key, seed.ino) { LiveSame(v, v1, seed.key, seed.ino); }
      if OneName(v1, seed.key) && LiveAt(v1, seed.key, seed.ino) { OneNameIntact(v1, seed); }
      ok, capture := ClaimSeed(seed);
      BesideTwice(v, v1, Now(), seed.key);
      OnlyTwice(v, v1, Now(), seed.key);
      TouchedGrows(v1, Now(), seed.key);
    }

    /** From the claim on: the file is moved off its live name before it is looked at again. */
    method ClaimSeed(seed: SeedRecord) returns (ok: bool, ghost capture: Capture)
      requires Valid(Now())
      modifies this
      ensures old(faults) <= faults && (!ok && Intact(old(Now()), seed) && seed.key !in touched ==> old(faults) < faults)
      ensures Valid(Now()) && Only(old(Now()), Now(), seed.key) && journal == old(journal)
      ensures ok && Intact(old(Now()), seed) && seed.key !in touched ==> Left(Now(), seed)
      ensures old(acts) <= acts && (acts == old(acts) ==> Beside(old(Now()), Now(), seed.key))
      ensures capture.Captured? && acts == capture.acts && faults == old(faults) && !Unchanged(capture.view, seed) ==> Still(capture.view, Now())
    {
      hide Valid, EditorActed, Calm, Only, SeedLive, Intact, Left, Aside, Still, Beside, Unchanged;
      capture := NoCapture;
      ghost var v0 := Now();
      Turn(seed.key, seed);
      CalmIsOnly(v0, Now(), seed.key);
      UnusedToken();
      var token: nat :| Rollback(token) !in names;
      ghost var v := Now();
      var claimed := Claim(seed.key, token);
      OnlyTwice(v0, v, Now(), seed.key);
      TouchedGrows(v, Now(), seed.key);
      SeedIsLive(v, seed);
      StillSame(v0, Now());
      StillIsBeside(v0, Now(), seed.key);
      if claimed == NoEntry { return true, capture; }
      if claimed != Done { return false, capture; }
      LiveOwner(v, seed.key);
      Moved(v, Now(), seed, token);
      ghost var v1 := Now();
      capture := Captured(v, acts);
      StillSame(v0, v);
      StillIsBeside(v0, v, seed.key);
      BesideClaimed(v, v1, seed.key, token);
      BesideTwice(v0, v, v1, seed.key);
      ok := InspectClaimed(seed, token);
      BesideTwice(v0, v1, Now(), seed.key);
      OnlyTwice(v0, v1, Now(), seed.key);
      TouchedGrows(v1, Now(), seed.key);
      if acts == capture.acts && faults == old(faults) && !Unchanged(v, seed) { CaptureIsBack(v, v1, Now(), seed, token); }
    }

    /** The inspection of the file under its private name. */
    method InspectClaimed(seed: SeedRecord, token: nat) returns (ok: bool)
      requires Valid(Now()) && Aside(Now(), seed, token, false)
      modifies this
      ensures old(faults) <= faults && (!ok && Aside(old(Now()), seed, token, true) && seed.key !in touched ==> old(faults) < faults)
      ensures Valid(Now()) && Only(old(Now()), Now(), seed.key) && journal == old(journal)
      ensures ok && Aside(old(Now()), seed, token, true) && seed.key !in touched ==> Left(Now(), seed)
      ensures old(acts) <= acts && (acts == old(acts) ==> Beside(old(Now()), Now(), seed.key))
      ensures acts == old(acts) && faults == old(faults) && Live(seed.key) !in old(names)
              && !(old(names)[Rollback(token)] == seed.ino && old(contents)[seed.ino] == seed.digest) ==>
                LiveAt(Now(), seed.key, old(names)[Rollback(token)])
    {
      hide Valid, EditorActed, Calm, Only, Left, Aside, Still, Beside;
      ghost var v := Now();
      Turn(seed.key, seed);
      StillSame(v, Now());
      StillIsBeside(v, Now(), seed.key);
      AsideKept(v, Now(), seed, token);
      CalmIsOnly(v, Now(), seed.key);
      TouchedGrows(v, Now(), seed.key);
      var captured := Lstat(Rollback(token));
      if captured.StatFailed? { return false; }
      ghost var v1 := Now();
      Turn(seed.key, seed);
      AsideKept(v1, Now(), seed, token);
      CalmTwice(v, v1, Now(), seed.key);
      CalmIsOnly(v, Now(), seed.key);
      TouchedGrows(v1, Now(), seed.key);
      AsideNamed(Now(), seed, token);
      AsideNamed(v1, seed, token);
      StillSame(v, Now());
      StillIsBeside(v, Now(), seed.key);
      if captured.Found? && captured.ino == seed.ino && contents[names[Rollback(token)]] == seed.digest {
        if Aside(Now(), seed, token, true) { AsideHasLeft(Now(), seed, token); }
        return true;
      }
      ghost var v2 := Now();
      ok := PutBack(seed.key, token);
      BesideTwice(v, v2, Now(), seed.key);
      OnlyTwice(v, v2, Now(), seed.key);
      TouchedGrows(v2, Now(), seed.key);
    }

    /** A replacement was captured: restore it unless the name is taken by now. */
    method PutBack(key: Key, token: nat) returns (ok: bool)
      requires Valid(Now()) && Rollback(token) in names && names[Rollback(token)] in owner && owner[names[Rollback(token)]] == key
      modifies this
      ensures old(faults) <= faults
      ensures Valid(Now()) && Only(old(Now()), Now(), key) && journal == old(journal)
      ensures old(acts) <= acts && (acts == old(acts) ==> Beside(old(Now()), Now(), key))
      ensures acts == old(acts) && faults == old(faults) && Live(key) !in old(names) ==>
                LiveAt(Now(), key, old(names)[Rollback(token)]) && Rollback(token) !in names
    {
      hide Valid, EditorActed, Calm, Only, Still, Beside;
      ghost var v, ino := Now(), names[Rollback(token)];
      ghost var seed := SeedRecord(key, ino, "");
      Turn(key, seed);
      CurrentKept(v, Now(), key, ino);
      PrivateKept(v, Now(), Rollback(token));
      CalmIsOnly(v, Now(), key);
      ghost var v1 := Now();
      var linked := LinkLive(Rollback(token), key, false);
      OnlyTwice(v, v1, Now(), key);
      StillSame(v, Now());
      StillIsBeside(v, Now(), key);
      if linked == Exists { return true; }
      if linked != Done { return false; }
      ghost var n := Now();
      StillSame(v, v1);
      StillIsBeside(v, v1, key);
      BesideLinked(v1, n, key, ino);
      BesideTwice(v, v1, n, key);
      LiveIsCurrent(n, key, ino);
      Turn(key, seed);
      StillSame(n, Now());
      CurrentKept(n, Now(), key, ino);
      PrivateKept(n, Now(), Rollback(token));
      CalmIsOnly(n, Now(), key);
      OnlyTwice(v, n, Now(), key);
      ghost var v2 := Now();
      var removed := RemovePrivate(Rollback(token), key);
      StillWithout(v2, Now(), Rollback(token));
      StillTwice(n, v2, Now());
      StillIsBeside(n, Now(), key);
      BesideTwice(v, n, Now(), key);
      CalmIsOnly(v2, Now(), key);
      OnlyTwice(v, v2, Now(), key);
      ok := removed == Done;
    }

    /** rollbackPreservedFiles, whatever the editor does meanwhile: what it last saved can be found,
        live or retained, and no call has put one live file in the place of another.  When the
        rollback goes through, every seed whose file the editor has not touched has left its live
        name and is retained, and no other untouched live name has changed. */
    method RollbackAll(created: seq<SeedRecord>) returns (ok: bool)
      requires Valid(Now())
      modifies this
      // Untouched live files that have no second name, or are the seeds, are no obstacle.
      ensures old(faults) <= faults
      ensures faults == old(faults) && DistinctKeys(created) && (forall j :: 0 <= j < |created| ==> created[j].key !in touched && Fit(old(Now()), created[j])) ==> ok
      ensures Valid(Now()) && journal == old(journal) && old(touched) <= touched
      ensures forall k :: NewestSaved(Now(), k)
      ensures forall c :: 0 <= c < |calls| ==> NeverOverwrites(calls[c].0, calls[c].1)
      ensures ok && DistinctKeys(created) ==> forall j :: 0 <= j < |created| ==> RolledBack(old(Now()), Now(), created[j])
      ensures forall k :: k !in touched && Unlisted(created, k) ==> SameLive(old(Now()), Now(), k)
      // With the editor idle, what is not an unchanged seed stays live, whether the editor has changed it before or not.
      ensures old(acts) <= acts
      ensures acts == old(acts) ==>
                contents == old(contents) && forall k :: NoneUnchanged(old(Now()), created, k) ==> SameLive(old(Now()), Now(), k)
    {
      hide Valid, Only, SeedLive, Left, SameLive, Waiting, RolledBack, Fit, Still, Beside, NoneUnchanged;
      ghost var v := Now();
      ok := true;
      AsideFromItself(v, created);
      forall j | 0 <= j < |created| ensures Waiting(v, v, created[j]) { WaitingItself(v, created[j]); }
      forall k ensures SameLive(v, v, k) { SameLiveItself(v, k); }
      for i := |created| downto 0
        invariant old(faults) <= faults
        invariant DistinctKeys(created) ==> forall j :: 0 <= j < i && created[j].key !in touched && Fit(v, created[j]) ==> Fit(Now(), created[j])
        invariant ok && Valid(Now()) && journal == old(journal) && old(touched) <= touched
        invariant old(acts) <= acts && (acts == old(acts) ==> AsideFrom(v, Now(), created))
        invariant DistinctKeys(created) ==> forall j :: 0 <= j < i ==> Waiting(v, Now(), created[j])
        invariant DistinctKeys(created) ==> forall j :: i <= j < |created| ==> RolledBack(v, Now(), created[j])
        invariant forall k :: Unlisted(created, k) ==> k !in touched ==> SameLive(v, Now(), k)
      {
        ghost var b := Now();
        ghost var capture;
        ok, capture := RollbackSeed(created[i]);
        if acts == old(acts) { OneMoreAside(v, b, Now(), created, i); }
        TouchedGrows(b, Now(), created[i].key);
        forall k | Unlisted(created, k) ensures k !in touched ==> SameLive(v, Now(), k) {
          OtherSame(v, b, Now(), created[i].key, k);
        }
        if !ok { break; }
        if DistinctKeys(created) {
          forall j | 0 <= j < i && created[j].key !in touched && Fit(b, created[j]) ensures Fit(Now(), created[j]) {
            FitBeside(b, Now(), created[i].key, created[j]);
          }
        }
        if DistinctKeys(created) { Step(v, b, created, i); }
      }
      forall k ensures NewestSaved(Now(), k) { ValidSaves(Now(), k); }
      CallsKept(Now());
      if acts == old(acts) { AsideFromMeans(v, Now(), created); }
    }

    lemma Step(v: View, b: View, created: seq<SeedRecord>, i: nat)
      requires i < |created| && DistinctKeys(created) && Valid(b) && Valid(Now()) && Only(b, Now(), created[i].key)
      requires SeedLive(b, created[i]) && created[i].key !in touched ==> Left(Now(), created[i])
      requires !LiveAt(b, created[i].key, created[i].ino) && created[i].key !in touched ==> SameLive(b, Now(), created[i].key)
      requires forall j :: 0 <= j <= i ==> Waiting(v, b, created[j])
      requires forall j :: i < j < |created| ==> RolledBack(v, b, created[j])
      ensures forall j :: 0 <= j < i ==> Waiting(v, Now(), created[j])
      ensures forall j :: i <= j < |created| ==> RolledBack(v, Now(), created[j])
    {
      hide Valid, Only, SeedLive, Left, SameLive, Waiting, RolledBack;
      SelfRolledBack(v, b, Now(), created[i]);
      forall j | 0 <= j < |created| && j != i
        ensures Waiting(v, b, created[j]) ==> Waiting(v, Now(), created[j])
        ensures RolledBack(v, b, created[j]) ==> RolledBack(v, Now(), created[j])
      {
        OtherRolledBack(v, b, Now(), created[i].key, created[j]);
      }
    }

    // ---------- seeding ----------

    lemma UnusedSeed()
      ensures exists token: nat :: Seed(token) !in names
    {
      UnusedExists(set n | n in names && n.Seed? :: n.token);
      var token: nat :| token !in (set n | n in names && n.Seed? :: n.token);
      assert Seed(token) !in names;
    }

    /** A private temporary holding the release's copy.  It may fail before there is a file, or leave a
        file with other contents; that one is removed if the removal does not fail as well. */
    method WriteSeed(key: Key, text: Contents) returns (ok: bool, token: nat, ino: Ino)
      requires Valid(Now())
      modifies this
      ensures old(faults) <= faults && (ok <==> faults == old(faults))
      ensures Valid(Now()) && Calm(old(Now()), Now(), key) && placed == old(placed)
      ensures ok ==> Drafted(Now(), SeedRecord(key, ino, text), token)
    {
      hide Valid, Calm, Drafted, EditorActed;
      CalmItself(Now(), key);
      var fails: bool := *;
      if fails {
        faults := faults + 1;
        return false, 0, 0;
      }
      var written := text;
      var broken: bool := *;
      if broken { written := *; }
      ghost var v := Now();
      token, ino := CreateSeed(key, written);
      ok := !broken;
      if broken {
        faults := faults + 1;
        ghost var v1 := Now();
        Discard(SeedRecord(key, ino, written), token);
        CalmTwice(v, v1, Now(), key);
      }
    }

    /** The temporary, with what has been written to it. */
    method CreateSeed(key: Key, text: Contents) returns (token: nat, ino: Ino)
      requires Valid(Now())
      modifies this
      ensures faults == old(faults)
      ensures Valid(Now()) && Calm(old(Now()), Now(), key) && placed == old(placed) && Drafted(Now(), SeedRecord(key, ino, text), token)
    {
      hide Valid, Calm, Drafted;
      UnusedSeed();
      token :| Seed(token) !in names;
      UnusedExists(contents.Keys);
      ino :| ino !in contents.Keys;
      SeedWrittenKeeps(Now(), key, text, ino, token);
      SeedWrittenOnly(Now(), key, text, ino, token);
      DraftWritten(Now(), key, text, ino, token);
      ghost var n := SeedWritten(Now(), key, text, ino, token);
      calls := calls + [(names, names[Seed(token) := ino])];
      names, contents, owner := names[Seed(token) := ino], contents[ino := text], owner[ino := key];
      assert Now() == n;
    }

    /** The removal of the temporary after a failure, which may fail too. */
    method Discard(seed: SeedRecord, token: nat)
      requires Valid(Now()) && Drafted(Now(), seed, token)
      modifies this
      ensures old(faults) <= faults
      ensures Valid(Now()) && Calm(old(Now()), Now(), seed.key) && placed == old(placed)
    {
      hide Valid, Calm, Drafted;
      ghost var v := Now();
      DraftNamed(v, seed, token);
      EditorTurn();
      EditorCalm(v, Now(), seed.key);
      CurrentKept(v, Now(), seed.key, seed.ino);
      PrivateKept(v, Now(), Seed(token));
      ghost var v1 := Now();
      var _ := RemovePrivate(Seed(token), seed.key);
      CalmTwice(v, v1, Now(), seed.key);
    }

    /** recordPreservedFileAttempt: a failure may come before or after the line is written. */
    method Record(seed: SeedRecord) returns (ok: bool)
      requires Valid(Now())
      modifies this`journal, this`faults
      ensures faults == old(faults) + if ok then 0 else 1
      ensures Valid(Now()) && (journal == old(journal) || journal == old(journal) + [seed])
      ensures ok ==> journal == old(journal) + [seed] && Journaled(journal, seed.ino)
    {
      hide Valid, Journaled;
      ok := *;
      var appended: bool := *;
      if !ok { faults := faults + 1; }
      if !ok && !appended { return; }
      JournalGrows(Now(), seed);
      ghost var n := Now().(journal := journal + [seed]);
      journal := journal + [seed];
      assert Now() == n;
    }

    /** link(2) of the temporary, its removal in any case, and the check of the live file. */
    method Publish(seed: SeedRecord, token: nat) returns (ok: bool, linked: bool)
      requires Valid(Now()) && Seed(token) in names && names[Seed(token)] == seed.ino && seed.ino in owner && owner[seed.ino] == seed.key
      requires Journaled(journal, seed.ino)
      modifies this
      ensures old(faults) <= faults
      ensures !ok && old(Drafted(Now(), seed, token)) && seed.key !in touched && Live(seed.key) !in old(names) ==> old(faults) < faults
      ensures Valid(Now()) && Only(old(Now()), Now(), seed.key) && journal == old(journal)
      ensures linked && old(Drafted(Now(), seed, token)) ==> Created(Now(), seed, ok)
      ensures !linked && seed.key !in touched ==> SameLive(old(Now()), Now(), seed.key) && (ok ==> Live(seed.key) in names)
      ensures linked && seed.key !in touched ==> Live(seed.key) !in old(names)
    {
      hide Valid, EditorActed, Only, Calm, Drafted, SeedLive, Intact, Journaled;
      ghost var v := Now();
      var errno := LinkLive(Seed(token), seed.key, true);
      linked := errno == Done;
      ghost var v1 := Now();
      if linked && Drafted(v, seed, token) { DraftLinked(v, v1, seed, token); }
      if !linked { NamesSame(v, v1, seed.key); }
      ok := Tidy(seed, token, errno);
      CalmIsOnly(v1, Now(), seed.key);
      CalmSame(v1, Now(), seed.key);
      SameLiveTwice(v, v1, Now(), seed.key);
      OnlyTwice(v, v1, Now(), seed.key);
      SeedIsLive(Now(), seed);
    }

    /** The temporary goes in any case; a failure of either call is thrown afterwards. */
    method Tidy(seed: SeedRecord, token: nat, errno: Errno) returns (ok: bool)
      requires Valid(Now()) && Seed(token) in names && names[Seed(token)] == seed.ino && seed.ino in owner && owner[seed.ino] == seed.key
      modifies this
      ensures old(faults) <= faults && (!ok && errno == Done && SeedLive(old(Now()), seed) && seed.key !in touched ==> old(faults) < faults)
      ensures Valid(Now()) && Calm(old(Now()), Now(), seed.key)
      ensures SeedLive(old(Now()), seed) ==> Created(Now(), seed, ok)
      ensures ok ==> Live(seed.key) in names
    {
      hide Valid, EditorActed, Calm, SeedLive, Intact;
      ghost var v := Now();
      Turn(seed.key, seed);
      CurrentKept(v, Now(), seed.key, seed.ino);
      PrivateKept(v, Now(), Seed(token));
      ghost var v1 := Now();
      var removed := RemovePrivate(Seed(token), seed.key);
      CalmTwice(v, v1, Now(), seed.key);
      TouchedGrows(v1, Now(), seed.key);
      if SeedLive(v1, seed) && names == v1.names - {Seed(token)} {
        LeftoverRemoved(v1, Now(), seed, Seed(token));
        IntactIsLive(Now(), seed);
      } else if SeedLive(v1, seed) {
        SameNamesLive(v1, Now(), seed);
      }
      if removed != Done || (errno != Done && errno != Exists) { return false; }
      ghost var v2 := Now();
      Turn(seed.key, seed);
      CalmTwice(v, v2, Now(), seed.key);
      TouchedGrows(v2, Now(), seed.key);
      if Intact(Now(), seed) { IntactIsLive(Now(), seed); }
      ghost var v3 := Now();
      var checked := AssertPreserved(seed.key, seed);
      CalmTwice(v, v3, Now(), seed.key);
      TouchedGrows(v3, Now(), seed.key);
      ok := checked.Found?;
      if Intact(Now(), seed) { IntactIsLive(Now(), seed); }
    }

    /** One file of preparePreservedFiles.  A file that exists is left alone; a seed is journaled
        before it becomes live. */
    method SeedOnce(key: Key, text: Contents) returns (ok: bool, created: seq<SeedRecord>, ghost attempted: seq<SeedRecord>)
      requires Valid(Now())
      modifies this
      ensures old(faults) <= faults && (!ok && OneName(old(Now()), key) && key !in touched ==> old(faults) < faults)
      ensures Valid(Now()) && PreparedOne(old(Now()), Now(), key, text, created, attempted, ok)
      ensures ok && key !in touched ==> Live(key) in names
    {
      hide Valid, EditorActed, Only, Calm, Drafted, Journaled, Attempted, Created;
      created, attempted := [], [];
      ghost var v := Now();
      ghost var none := SeedRecord(key, 0, text);
      var checked := AssertPreserved(key, none);
      CalmIsOnly(v, Now(), key);
      CalmSame(v, Now(), key);
      if checked.Found? { return true, [], []; }
      if checked.StatFailed? { return false, [], []; }
      ghost var v1 := Now();
      Turn(key, none);
      CalmTwice(v, v1, Now(), key);
      ghost var v2 := Now();
      var written, token, ino := WriteSeed(key, text);
      CalmTwice(v, v2, Now(), key);
      CalmTwice(v1, v2, Now(), key);
      CalmSame(v1, Now(), key);
      TouchedGrows(v1, Now(), key);
      CalmIsOnly(v, Now(), key);
      CalmSame(v, Now(), key);
      if !written { return false, [], []; }
      ok, created, attempted := JournalAndPublish(SeedRecord(key, ino, text), token, v);
    }

    /** The journal entry, and from there on. */
    method JournalAndPublish(seed: SeedRecord, token: nat, ghost v: View) returns (ok: bool, created: seq<SeedRecord>, ghost attempted: seq<SeedRecord>)
      requires Valid(Now()) && Drafted(Now(), seed, token) && Calm(v, Now(), seed.key)
      requires seed.key !in touched ==> Live(seed.key) !in names
      modifies this
      ensures old(faults) <= faults && (!ok && seed.key !in touched ==> old(faults) < faults)
      ensures Valid(Now()) && PreparedOne(v, Now(), seed.key, seed.digest, created, attempted, ok)
      ensures ok && seed.key !in touched ==> Live(seed.key) in names
    {
      hide Valid, EditorActed, Only, Calm, Drafted, SeedLive, Intact, Journaled;
      created := [];
      ghost var v1 := Now();
      JournalOnly(v1, seed, seed.key);
      CalmIsOnly(v, v1, seed.key);
      CalmSame(v, v1, seed.key);
      OnlyItself(v1, seed.key);
      ok := Record(seed);
      ghost var v2 := Now();
      attempted := journal[|v1.journal|..];
      assert attempted == [] || attempted == [seed];
      assert v2 == v1.(journal := v1.journal + attempted);
      assert attempted == [] ==> v2 == v1;
      OnlyTwice(v, v1, v2, seed.key);
      SameDraft(v1, v2, seed, token);
      if !ok {
        Discard(seed, token);
        CalmIsOnly(v2, Now(), seed.key);
        CalmSame(v2, Now(), seed.key);
        TouchedGrows(v2, Now(), seed.key);
        OnlyTwice(v, v2, Now(), seed.key);
        return;
      }
      DraftNamed(v2, seed, token);
      EditorTurn();
      EditorCalm(v2, Now(), seed.key);
      CalmIsOnly(v2, Now(), seed.key);
      CalmSame(v2, Now(), seed.key);
      CurrentKept(v2, Now(), seed.key, seed.ino);
      PrivateKept(v2, Now(), Seed(token));
      TouchedGrows(v2, Now(), seed.key);
      if seed.key !in touched { DraftStays(v2, Now(), seed, token); }
      OnlyTwice(v, v2, Now(), seed.key);
      ghost var v3 := Now();
      var published, linked := Publish(seed, token);
      OnlyTwice(v, v3, Now(), seed.key);
      TouchedGrows(v3, Now(), seed.key);
      SeedIsLive(Now(), seed);
      ok := published;
      if linked { created := [seed]; }
    }

    /** preparePreservedFiles: seeds the files that are missing, one after the other, and stops at the
        first failure.  Every file made live is journaled first; created are the seeds that were made
        live, attempted what the journal has gained. */
    method Prepare(files: seq<(Key, Contents)>) returns (ok: bool, created: seq<SeedRecord>, ghost attempted: seq<SeedRecord>)
      requires Valid(Now())
      modifies this
      // Untouched live files that have no second name are no obstacle.
      ensures old(faults) <= faults
      ensures faults == old(faults) && DistinctFiles(files) && Undisturbed(old(Now()), Now(), files) ==> ok
      ensures Valid(Now()) && old(touched) <= touched
      ensures forall k :: NewestSaved(Now(), k)
      ensures forall c :: 0 <= c < |calls| ==> NeverOverwrites(calls[c].0, calls[c].1)
      ensures forall i :: i in placed ==> Journaled(journal, i)
      ensures DistinctFiles(files) ==> exists i :: 0 <= i <= |files| && Prepared(old(Now()), Now(), files[..i], created, attempted, ok)
      ensures DistinctFiles(files) && ok ==> Prepared(old(Now()), Now(), files, created, attempted, true)
      ensures DistinctFiles(files) && ok ==> forall j :: 0 <= j < |files| && files[j].0 !in touched ==> Live(files[j].0) in names
    {
      hide Valid, Prepared, PreparedOne, Journaled, OneName;
      ok, created, attempted := true, [], [];
      ghost var v := Now();
      PreparedNothing(v);
      var i := 0;
      assert files[..0] == [];
      while ok && i < |files|
        invariant old(faults) <= faults
        invariant DistinctFiles(files) && ok ==> forall j :: i <= j < |files| && files[j].0 !in touched && OneName(v, files[j].0) ==> OneName(Now(), files[j].0)
        invariant !ok && faults == old(faults) && DistinctFiles(files) ==>
                    exists j :: 0 <= j < |files| && !(files[j].0 !in touched && OneName(v, files[j].0))
        invariant i <= |files| && Valid(Now()) && v.touched <= touched
        invariant DistinctFiles(files) ==> Prepared(v, Now(), files[..i], created, attempted, ok)
        invariant DistinctFiles(files) && ok ==> forall j :: 0 <= j < i && files[j].0 !in touched ==> Live(files[j].0) in names
      {
        ghost var b := Now();
        var one;
        ghost var tried;
        ok, one, tried := SeedOnce(files[i].0, files[i].1);
        if DistinctFiles(files) {
          OneMorePrepared(v, b, Now(), files, i, created, attempted, one, tried, ok);
          forall j | 0 <= j < i && (files[j].0 !in b.touched ==> Live(files[j].0) in b.names)
            ensures files[j].0 !in touched ==> Live(files[j].0) in names
          {
            StillLive(b, Now(), files[i].0, files[i].1, one, tried, ok, files[j].0);
          }
        }
        if DistinctFiles(files) {
          forall j | i < j < |files| && files[j].0 !in touched && OneName(b, files[j].0) ensures OneName(Now(), files[j].0) {
            OneNameAfter(b, Now(), files[i].0, files[i].1, one, tried, ok, files[j].0);
          }
        }
        PreparedGrows(b, Now(), files[i].0, files[i].1, one, tried, ok);
        created, attempted, i := created + one, attempted + tried, i + 1;
      }
      assert files[..|files|] == files;
      forall k ensures NewestSaved(Now(), k) { ValidSaves(Now(), k); }
      CallsKept(Now());
    }

    /** A deployment that seeds its files and is rolled back afterwards, by the seeds it knows it has
        made or, after an interruption, by its journal.  When the rollback goes through, every live
        name that the editor has not touched is as it was before the seeding, and the seeds are
        retained. */
    method SeedThenRollBack(files: seq<(Key, Contents)>, byJournal: bool) returns (undone: bool, created: seq<SeedRecord>)
      requires Valid(Now()) && DistinctFiles(files)
      modifies this
      ensures faults == old(faults) && Undisturbed(old(Now()), Now(), files) ==> undone
      ensures Valid(Now())
      ensures forall k :: NewestSaved(Now(), k)
      ensures undone ==> forall k :: k !in touched ==> SameLive(old(Now()), Now(), k)
      ensures undone ==> forall r :: r in created && r.key !in touched ==> Left(Now(), r)
    {
      hide Valid, EditorActed, Prepared, SameLive, Left, RolledBack, OneName, Fit;
      ghost var v := Now();
      var known := |journal|;
      var ok;
      ghost var attempted;
      ok, created, attempted := Prepare(files);
      ghost var b := Now();
      EditorTurn();
      ghost var b' := Now();
      EditorGrows(b, b');
      ghost var i :| 0 <= i <= |files| && Prepared(v, b, files[..i], created, attempted, ok);
      PreparedRecords(v, b, files[..i], created, attempted, ok);
      var records := if byJournal then journal[known..] else created;
      undone := RollbackAll(records);
      if Undisturbed(v, Now(), files) { FitRecords(v, b, b', Now(), files, i, created, attempted, records, ok); }
      if undone {
        UndoneAll(v, b, b', Now(), files[..i], created, attempted, records, ok);
      }
    }
  }
}
