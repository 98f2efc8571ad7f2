/** Seeding preserved deploy files and rolling the seeding back (src/deploy-files.ts), while an
    editor works on the same files.  The directory is modelled by its names and inodes; every
    system call is atomic, and the editor may act between any two of them.  The editor opens a
    live file, saves through what it has open, replaces or creates the live file, or deletes it; it
    saves through its most recent descriptor only, and makes no hard links.  File digests are
    modelled as the contents themselves, and random names as names never used before. */
module PreservedFiles {

  type Key = string
  type Ino = nat
  type Contents = string

  /** The live name of a preserved path, and the two kinds of private names beside it. */
  datatype Name = Live(key: Key) | Seed(token: nat) | Rollback(token: nat)

  /** A seed as it is recorded: where it goes, its inode, and its digest. */
  datatype SeedRecord = SeedRecord(key: Key, ino: Ino, digest: Contents)

  datatype Stat = Found(ino: Ino, links: nat) | Absent | StatFailed
  datatype Errno = Done | Exists | NoEntry | OtherError

  /** The directory with the editor and the history that the specification speaks about: the key
      an inode was made for, what the editor has open and last saved, what it has acted on, the
      effect on the names of every call made by seeding or rollback, and the inodes that seeding
      made live. */
  datatype View = View(
    names: map<Name, Ino>,
    contents: map<Ino, Contents>,
    journal: seq<SeedRecord>,
    held: map<Key, Ino>,
    owner: map<Ino, Key>,
    newest: map<Key, Ino>,
    saved: map<Key, Contents>,
    touched: set<Key>,
    calls: seq<(map<Name, Ino>, map<Name, Ino>)>,
    placed: set<Ino>
  )

  // ---------- what must hold between any two system calls ----------

  ghost predicate LiveAt(v: View, key: Key, ino: Ino) {
    Live(key) in v.names && v.names[Live(key)] == ino
  }

  ghost predicate Retained(v: View, ino: Ino) {
    exists r :: Rollback(r) in v.names && v.names[Rollback(r)] == ino
  }

  /** An inode nobody can lose: it has the live name or a retained one. */
  ghost predicate Kept(v: View, key: Key, ino: Ino) {
    ino in v.owner && v.owner[ino] == key && (LiveAt(v, key, ino) || Retained(v, ino))
  }

  ghost predicate Journaled(journal: seq<SeedRecord>, ino: Ino) {
    exists j :: 0 <= j < |journal| && journal[j].ino == ino
  }

  /** A call by seeding or rollback never puts one file in the place of another: a live name keeps
      its file, or the file is moved aside and retained. */
  ghost predicate NeverOverwrites(before: map<Name, Ino>, after: map<Name, Ino>) {
    forall k: Key :: Live(k) in before ==>
      if Live(k) in after then after[Live(k)] == before[Live(k)]
      else exists r :: Rollback(r) in after && after[Rollback(r)] == before[Live(k)]
  }

  /** The directory after a call of seeding or rollback that changed the names. */
  function Called(v: View, names: map<Name, Ino>, placed: set<Ino>): View {
    v.(names := names, placed := placed, calls := v.calls + [(v.names, names)])
  }

  ghost predicate SameInodes(v: View) {
    forall i :: i in v.contents <==> i in v.owner
  }

  ghost predicate Valid(v: View) {
    && SameInodes(v)
    && (forall n :: n in v.names ==> v.names[n] in v.owner)
    && (forall k :: Live(k) in v.names ==> v.owner[v.names[Live(k)]] == k)
    && (forall k :: k in v.held ==> Kept(v, k, v.held[k]))
    && (forall k :: k in v.newest <==> k in v.saved)
    && (forall k :: k in v.newest ==> Kept(v, k, v.newest[k]) && v.contents[v.newest[k]] == v.saved[k])
    && (forall i :: i in v.placed ==> Journaled(v.journal, i))
    && (forall c :: 0 <= c < |v.calls| ==> NeverOverwrites(v.calls[c].0, v.calls[c].1))
  }

  /** What the editor last saved for a key can be found, live or under a retained name. */
  ghost predicate NewestSaved(v: View, key: Key) {
    key in v.saved ==>
      exists i :: i in v.contents && v.contents[i] == v.saved[key] && (LiveAt(v, key, i) || Retained(v, i))
  }

  lemma CallsKept(v: View)
    requires Valid(v)
    ensures forall c :: 0 <= c < |v.calls| ==> NeverOverwrites(v.calls[c].0, v.calls[c].1)
    ensures forall i :: i in v.placed ==> Journaled(v.journal, i)
  {
  }

  lemma ValidSaves(v: View, key: Key)
    requires Valid(v)
    ensures NewestSaved(v, key)
  {
    if key in v.saved {
      assert Kept(v, key, v.newest[key]);
    }
  }

  /** If the editor has open, or last saved, this inode, then it still is the live one. */
  ghost predicate Current(v: View, key: Key, ino: Ino) {
    LiveAt(v, key, ino) || ((key in v.held ==> v.held[key] != ino) && (key in v.newest ==> v.newest[key] != ino))
  }

  // ---------- the editor ----------

  ghost predicate SameLive(v: View, n: View, key: Key) {
    (Live(key) in v.names <==> Live(key) in n.names) && (Live(key) in v.names ==> n.names[Live(key)] == v.names[Live(key)])
  }

  /** What a turn of the editor leaves alone. */
  ghost predicate EditorActed(v: View, n: View) {
    && n.journal == v.journal && n.calls == v.calls && n.placed == v.placed
    && v.touched <= n.touched
    && (forall name: Name :: !name.Live? ==> (name in n.names <==> name in v.names))
    && (forall name: Name :: !name.Live? && name in v.names ==> n.names[name] == v.names[name])
    && (forall i :: i in v.owner ==> i in n.owner && n.owner[i] == v.owner[i])
    && (forall k: Key {:trigger SameLive(v, n, k)} :: k !in n.touched ==> SameLive(v, n, k))
    && (forall i :: i in v.contents && i in v.owner && v.owner[i] !in n.touched ==> i in n.contents && n.contents[i] == v.contents[i])
    && (forall k: Key, i: Ino {:trigger Current(n, k, i)} :: i in v.owner && Current(v, k, i) ==> Current(n, k, i))
  }

  lemma EditorActedTwice(a: View, b: View, c: View)
    requires EditorActed(a, b) && EditorActed(b, c)
    ensures EditorActed(a, c)
  {
    forall k: Key | k !in c.touched ensures SameLive(a, c, k) {
      assert SameLive(a, b, k) && SameLive(b, c, k);
    }
    forall k: Key, i: Ino | i in a.owner && Current(a, k, i) ensures Current(c, k, i) {
      assert Current(b, k, i);
    }
  }

  lemma EditorIdle(v: View)
    ensures EditorActed(v, v)
  {
  }

  function Opened(v: View, key: Key): View {
    if Live(key) in v.names
    then v.(held := v.held[key := v.names[Live(key)]], touched := v.touched + {key})
    else v
  }

  /** A save through the descriptor the editor has. */
  function SavedThrough(v: View, key: Key, text: Contents): View {
    if key in v.held
    then v.(contents := v.contents[v.held[key] := text], newest := v.newest[key := v.held[key]],
            saved := v.saved[key := text], touched := v.touched + {key})
    else v
  }

  /** A save that writes a new file and renames it over the live name, or creates that name. */
  function ReplacedBy(v: View, key: Key, text: Contents, ino: Ino): View {
    v.(names := v.names[Live(key) := ino], contents := v.contents[ino := text], owner := v.owner[ino := key],
       held := v.held[key := ino], newest := v.newest[key := ino], saved := v.saved[key := text],
       touched := v.touched + {key})
  }

  /** The editor deletes the live file, and with it gives up what it saved there. */
  function DeletedBy(v: View, key: Key): View {
    v.(names := v.names - {Live(key)}, held := v.held - {key}, newest := v.newest - {key}, saved := v.saved - {key},
       touched := v.touched + {key})
  }

  lemma DeletedKeeps(v: View, key: Key)
    requires Valid(v)
    ensures Valid(DeletedBy(v, key)) && EditorActed(v, DeletedBy(v, key))
  {
    hide Retained, Journaled, NeverOverwrites, Kept;
    var n := DeletedBy(v, key);
    forall k, i | k != key && Kept(v, k, i) ensures Kept(n, k, i) {
      KeptBesideDeleted(v, key, k, i);
    }
  }

  lemma KeptBesideDeleted(v: View, key: Key, k: Key, i: Ino)
    requires k != key && Kept(v, k, i)
    ensures Kept(DeletedBy(v, key), k, i)
  {
    hide Retained;
    RetainedStays(v, DeletedBy(v, key));
  }

  lemma OpenedKeeps(v: View, key: Key)
    requires Valid(v)
    ensures Valid(Opened(v, key)) && EditorActed(v, Opened(v, key))
  {
    OpenedValid(v, key);
    OpenedActs(v, key);
  }

  lemma OpenedValid(v: View, key: Key)
    requires Valid(v)
    ensures Valid(Opened(v, key))
  {
    KeptSame(v, Opened(v, key));
    if Live(key) in v.names { assert Kept(v, key, v.names[Live(key)]) by { assert LiveAt(v, key, v.names[Live(key)]); } }
    hide Kept, Journaled, NeverOverwrites;
  }

  lemma OpenedActs(v: View, key: Key)
    ensures EditorActed(v, Opened(v, key))
  {
  }

  lemma SavedKeeps(v: View, key: Key, text: Contents)
    requires Valid(v)
    ensures Valid(SavedThrough(v, key, text)) && EditorActed(v, SavedThrough(v, key, text))
  {
    SavedValid(v, key, text);
    SavedActs(v, key, text);
  }

  /** Names and owners are all that being kept depends on. */
  lemma KeptSame(v: View, n: View)
    requires n.names == v.names && n.owner == v.owner
    ensures forall k, i :: Kept(n, k, i) <==> Kept(v, k, i)
  {
    hide Retained;
    RetainedStays(v, n);
    RetainedStays(n, v);
  }

  lemma SavedValid(v: View, key: Key, text: Contents)
    requires Valid(v)
    ensures Valid(SavedThrough(v, key, text))
  {
    hide Kept, Journaled, NeverOverwrites;
    var n := SavedThrough(v, key, text);
    KeptSame(v, n);
    if key in v.held {
      KeptIsOld(v, key, v.held[key]);
      forall k | k in n.newest ensures n.newest[k] in n.contents && n.contents[n.newest[k]] == n.saved[k] {
        if k != key {
          KeptIsOld(v, k, v.newest[k]);
          assert v.newest[k] != v.held[key];
        }
      }
    }
  }

  lemma SavedActs(v: View, key: Key, text: Contents)
    requires Valid(v)
    ensures EditorActed(v, SavedThrough(v, key, text))
  {
    hide Journaled, NeverOverwrites, Retained;
    if key in v.held { assert Kept(v, key, v.held[key]); }
  }

  lemma ReplacedKeeps(v: View, key: Key, text: Contents, ino: Ino)
    requires Valid(v) && ino !in v.contents
    ensures Valid(ReplacedBy(v, key, text, ino)) && EditorActed(v, ReplacedBy(v, key, text, ino))
  {
    ReplacedValid(v, key, text, ino);
    ReplacedActs(v, key, text, ino);
  }

  lemma ReplacedValid(v: View, key: Key, text: Contents, ino: Ino)
    requires Valid(v) && ino !in v.contents
    ensures Valid(ReplacedBy(v, key, text, ino))
  {
    hide Retained, Journaled, NeverOverwrites, Kept;
    var n := ReplacedBy(v, key, text, ino);
    ReplacedIsKept(v, key, text, ino);
    forall k, i | k != key && Kept(v, k, i) ensures Kept(n, k, i) {
      KeptBesideReplaced(v, key, text, ino, k, i);
    }
    forall k | k in n.newest ensures Kept(n, k, n.newest[k]) && n.newest[k] in n.contents && n.contents[n.newest[k]] == n.saved[k] {
      if k != key { KeptIsOld(v, k, v.newest[k]); }
    }
  }

  lemma KeptIsOld(v: View, key: Key, ino: Ino)
    requires SameInodes(v) && Kept(v, key, ino)
    ensures ino in v.contents && ino in v.owner && v.owner[ino] == key
  {
  }

  lemma ReplacedIsKept(v: View, key: Key, text: Contents, ino: Ino)
    ensures Kept(ReplacedBy(v, key, text, ino), key, ino)
  {
  }

  lemma KeptBesideReplaced(v: View, key: Key, text: Contents, ino: Ino, k: Key, i: Ino)
    requires SameInodes(v) && ino !in v.contents && k != key && Kept(v, k, i)
    ensures Kept(ReplacedBy(v, key, text, ino), k, i)
  {
    hide Retained;
    RetainedStays(v, ReplacedBy(v, key, text, ino));
  }

  lemma ReplacedActs(v: View, key: Key, text: Contents, ino: Ino)
    requires SameInodes(v) && ino !in v.contents
    ensures EditorActed(v, ReplacedBy(v, key, text, ino))
  {
  }

  lemma RetainedStays(v: View, n: View)
    requires forall r :: Rollback(r) in v.names ==> Rollback(r) in n.names && n.names[Rollback(r)] == v.names[Rollback(r)]
    ensures forall i :: Retained(v, i) ==> Retained(n, i)
  {
  }

  // ---------- the system calls of seeding and rollback ----------

  /** rename(2) of a live file to a private name that was free. */
  function Claimed(names: map<Name, Ino>, key: Key, token: nat): map<Name, Ino>
    requires Live(key) in names
  {
    (names - {Live(key)})[Rollback(token) := names[Live(key)]]
  }

  lemma ClaimedKeeps(v: View, key: Key, token: nat)
    requires Valid(v) && Live(key) in v.names && Rollback(token) !in v.names
    ensures Valid(Called(v, Claimed(v.names, key, token), v.placed))
  {
    hide Retained, Journaled;
    var n := Called(v, Claimed(v.names, key, token), v.placed);
    assert NeverOverwrites(v.names, n.names) by { assert Rollback(token) in n.names; }
    RetainedStays(v, n);
    RetainedAs(n, token);
    forall k | k in n.held ensures Kept(n, k, n.held[k]) { assert Kept(v, k, v.held[k]); }
    forall k | k in n.newest ensures Kept(n, k, n.newest[k]) { assert Kept(v, k, v.newest[k]); }
  }

  lemma RetainedAs(v: View, token: nat)
    requires Rollback(token) in v.names
    ensures Retained(v, v.names[Rollback(token)])
  {
  }

  /** link(2) to a free live name. */
  lemma LinkedKeeps(v: View, key: Key, ino: Ino, placed: set<Ino>)
    requires Valid(v) && Live(key) !in v.names && ino in v.owner && v.owner[ino] == key
    requires forall i :: i in placed ==> Journaled(v.journal, i)
    ensures Valid(Called(v, v.names[Live(key) := ino], placed))
  {
    hide Retained, Journaled;
    var n := Called(v, v.names[Live(key) := ino], placed);
    assert NeverOverwrites(v.names, n.names);
    RetainedStays(v, n);
    forall k | k in n.held ensures Kept(n, k, n.held[k]) { assert Kept(v, k, v.held[k]); }
    forall k | k in n.newest ensures Kept(n, k, n.newest[k]) { assert Kept(v, k, v.newest[k]); }
  }

  /** Removing a private name of an inode that the editor cannot lose by it. */
  lemma RemovedKeeps(v: View, name: Name, key: Key)
    requires Valid(v) && !name.Live?
    requires name.Rollback? && name in v.names ==> v.owner[v.names[name]] == key && Current(v, key, v.names[name])
    ensures Valid(Called(v, v.names - {name}, v.placed))
  {
    hide Journaled;
    var n := Called(v, v.names - {name}, v.placed);
    assert NeverOverwrites(v.names, n.names);
    forall k | k in v.held ensures Kept(n, k, n.held[k]) { KeptWithout(v, n, name, key, k, v.held[k]); }
    forall k | k in v.newest ensures Kept(n, k, n.newest[k]) { KeptWithout(v, n, name, key, k, v.newest[k]); }
  }

  lemma KeptWithout(v: View, n: View, name: Name, key: Key, k: Key, ino: Ino)
    requires Kept(v, k, ino) && !name.Live? && n == Called(v, v.names - {name}, v.placed)
    requires (k in v.held && v.held[k] == ino) || (k in v.newest && v.newest[k] == ino)
    requires name.Rollback? && name in v.names ==> v.names[name] in v.owner && v.owner[v.names[name]] == key && Current(v, key, v.names[name])
    ensures Kept(n, k, ino)
  {
    if !LiveAt(v, k, ino) {
      var r :| Rollback(r) in v.names && v.names[Rollback(r)] == ino;
      assert Rollback(r) != name;
      assert Rollback(r) in n.names && n.names[Rollback(r)] == ino;
    } else {
      assert LiveAt(n, k, ino);
    }
  }

  /** A temporary with a new inode, under a private name that was free. */
  function SeedWritten(v: View, key: Key, text: Contents, ino: Ino, token: nat): View {
    v.(names := v.names[Seed(token) := ino], contents := v.contents[ino := text], owner := v.owner[ino := key],
       calls := v.calls + [(v.names, v.names[Seed(token) := ino])])
  }

  lemma SeedWrittenKeeps(v: View, key: Key, text: Contents, ino: Ino, token: nat)
    requires Valid(v) && ino !in v.contents && Seed(token) !in v.names
    ensures Valid(SeedWritten(v, key, text, ino, token))
  {
    hide Retained, Journaled;
    var n := SeedWritten(v, key, text, ino, token);
    assert NeverOverwrites(v.names, n.names);
    RetainedStays(v, n);
    forall k | k in n.held ensures Kept(n, k, n.held[k]) { assert Kept(v, k, v.held[k]); }
    forall k | k in n.newest ensures Kept(n, k, n.newest[k]) { assert Kept(v, k, v.newest[k]); }
  }

  lemma JournalGrows(v: View, record: SeedRecord)
    requires Valid(v)
    ensures Valid(v.(journal := v.journal + [record])) && Journaled(v.journal + [record], record.ino)
  {
    var n := v.(journal := v.journal + [record]);
    forall i | Journaled(v.journal, i) ensures Journaled(n.journal, i) {
      var j :| 0 <= j < |v.journal| && v.journal[j].ino == i;
      assert n.journal[j].ino == i;
    }
    assert n.journal[|v.journal|] == record;
    forall k | k in n.held ensures Kept(n, k, n.held[k]) { assert Kept(v, k, v.held[k]); }
    forall k | k in n.newest ensures Kept(n, k, n.newest[k]) { assert Kept(v, k, v.newest[k]); }
  }

  lemma {:induction false} Bound(used: set<nat>) returns (bound: nat)
    ensures forall n :: n in used ==> n < bound
    decreases |used|
  {
    bound := 0;
    if used != {} {
      var n :| n in used;
      var rest := Bound(used - {n});
      bound := if rest <= n then n + 1 else rest;
      assert forall m :: m in used ==> m == n || m in used - {n};
    }
  }

  /** Something unused exists, so drawing it is possible. */
  lemma UnusedExists(used: set<nat>)
    ensures exists n: nat :: n !in used
  {
    var bound := Bound(used);
    assert bound !in used;
  }

  // ---------- what operations on one file leave alone ----------

  /** The name of another file's inode. */
  ghost predicate Foreign(v: View, name: Name, key: Key) {
    !name.Live? && name in v.names && v.names[name] in v.owner && v.owner[v.names[name]] != key
  }

  /** Seeding or rolling back one file, with the editor acting meanwhile, leaves the others alone as
      long as the editor does. */
  ghost predicate Only(v: View, n: View, key: Key) {
    && v.touched <= n.touched
    && (forall i :: i in v.owner ==> i in n.owner && n.owner[i] == v.owner[i])
    && (forall k: Key {:trigger SameLive(v, n, k)} :: k != key && k !in n.touched ==> SameLive(v, n, k))
    && (forall name: Name {:trigger Foreign(v, name, key)} :: Foreign(v, name, key) ==> name in n.names && n.names[name] == v.names[name])
    && (forall name: Name {:trigger Foreign(n, name, key)} :: Foreign(n, name, key) ==> name in v.names && v.names[name] == n.names[name])
    && (forall i :: i in v.contents && i in v.owner && v.owner[i] !in n.touched ==> i in n.contents && n.contents[i] == v.contents[i])
  }

  lemma OnlyItself(v: View, key: Key)
    ensures Only(v, v, key)
  {
  }

  lemma OnlyTwice(a: View, b: View, c: View, key: Key)
    requires Valid(b) && Only(a, b, key) && Only(b, c, key)
    ensures Only(a, c, key)
  {
    hide Kept, Journaled, NeverOverwrites;
    forall k: Key | k != key && k !in c.touched ensures SameLive(a, c, k) {
      assert SameLive(a, b, k) && SameLive(b, c, k);
    }
    forall name: Name | Foreign(a, name, key) ensures name in c.names && c.names[name] == a.names[name] {
      assert Foreign(b, name, key);
    }
    forall name: Name | Foreign(c, name, key) ensures name in a.names && a.names[name] == c.names[name] {
      assert Foreign(b, name, key);
    }
  }

  lemma EditorOnly(v: View, n: View, key: Key)
    requires Valid(v) && EditorActed(v, n)
    ensures Only(v, n, key)
  {
    hide Kept, Journaled, NeverOverwrites, Current;
    forall k: Key | k != key && k !in n.touched ensures SameLive(v, n, k) {}
  }

  /** The same, when nothing but the editor acts on the live name of the file itself. */
  ghost predicate Calm(v: View, n: View, key: Key) {
    Only(v, n, key) && n.journal == v.journal && (key !in n.touched ==> SameLive(v, n, key))
  }

  lemma CalmItself(v: View, key: Key)
    ensures Calm(v, v, key)
  {
  }

  lemma TouchedGrows(v: View, n: View, key: Key)
    requires Only(v, n, key) || Calm(v, n, key)
    ensures v.touched <= n.touched
  {
  }

  lemma CalmSame(v: View, n: View, key: Key)
    requires Calm(v, n, key)
    ensures key !in n.touched ==> SameLive(v, n, key)
  {
  }

  lemma SameLiveItself(v: View, key: Key)
    ensures SameLive(v, v, key)
  {
  }

  lemma NamesSame(v: View, n: View, key: Key)
    requires n.names == v.names
    ensures SameLive(v, n, key)
  {
  }

  lemma SameLiveTwice(a: View, b: View, c: View, key: Key)
    ensures SameLive(a, b, key) && SameLive(b, c, key) ==> SameLive(a, c, key)
  {
  }

  lemma CalmIsOnly(v: View, n: View, key: Key)
    requires Calm(v, n, key)
    ensures Only(v, n, key) && n.journal == v.journal
  {
  }

  lemma CalmTwice(a: View, b: View, c: View, key: Key)
    requires Valid(b) && Calm(a, b, key) && Calm(b, c, key)
    ensures Calm(a, c, key)
  {
    hide Only;
    OnlyTwice(a, b, c, key);
    OnlyGrows(b, c, key);
  }

  lemma OnlyGrows(v: View, n: View, key: Key)
    requires Only(v, n, key)
    ensures v.touched <= n.touched && forall i :: i in v.owner ==> i in n.owner && n.owner[i] == v.owner[i]
  {
  }

  /** A call that changes only the live name of a key, or private names of its inodes. */
  lemma CallOnly(v: View, n: View, key: Key)
    requires Valid(v) && n.touched == v.touched && n.owner == v.owner && n.contents == v.contents
    requires forall k: Key :: k != key ==> SameLive(v, n, k)
    requires forall name: Name :: !name.Live? && (name in v.names || name in n.names) ==>
               || (name in v.names && name in n.names && n.names[name] == v.names[name])
               || ((name in v.names ==> v.owner[v.names[name]] == key) && (name in n.names ==> n.names[name] in v.owner && v.owner[n.names[name]] == key))
    ensures Only(v, n, key)
  {
    hide Kept, Journaled, NeverOverwrites;
  }

  lemma ClaimedOnly(v: View, key: Key, token: nat)
    requires Valid(v) && Live(key) in v.names && Rollback(token) !in v.names
    ensures Only(v, Called(v, Claimed(v.names, key, token), v.placed), key)
  {
    hide Kept, Journaled, NeverOverwrites, Only;
    CallOnly(v, Called(v, Claimed(v.names, key, token), v.placed), key);
  }

  lemma LinkedOnly(v: View, key: Key, ino: Ino, placed: set<Ino>)
    requires Valid(v)
    ensures Only(v, Called(v, v.names[Live(key) := ino], placed), key)
  {
    hide Kept, Journaled, NeverOverwrites, Only;
    CallOnly(v, Called(v, v.names[Live(key) := ino], placed), key);
  }

  lemma RemovedOnly(v: View, name: Name, key: Key)
    requires Valid(v) && !name.Live? && (name in v.names ==> v.owner[v.names[name]] == key)
    ensures Calm(v, Called(v, v.names - {name}, v.placed), key)
  {
    hide Kept, Journaled, NeverOverwrites, Only;
    CallOnly(v, Called(v, v.names - {name}, v.placed), key);
  }

  lemma SeedWrittenOnly(v: View, key: Key, text: Contents, ino: Ino, token: nat)
    requires Valid(v) && ino !in v.contents && Seed(token) !in v.names
    ensures Calm(v, SeedWritten(v, key, text, ino, token), key)
  {
    hide Kept, Journaled, NeverOverwrites;
    var n := SeedWritten(v, key, text, ino, token);
    forall k: Key ensures SameLive(v, n, k) {}
  }

  // ---------- a seed that nobody touches ----------

  /** The seed is live with the contents it was made with; a temporary may still be linked to it. */
  ghost predicate SeedLive(v: View, seed: SeedRecord) {
    && LiveAt(v, seed.key, seed.ino)
    && (forall n :: n in v.names && v.names[n] == seed.ino ==> n == Live(seed.key) || n.Seed?)
    && (forall n: Name, m: Name :: n in v.names && m in v.names && v.names[n] == seed.ino && v.names[m] == seed.ino && n.Seed? && m.Seed? ==> n == m)
    && seed.ino in v.contents && v.contents[seed.ino] == seed.digest
  }

  /** The live name is the seed's only one. */
  ghost predicate Intact(v: View, seed: SeedRecord) {
    && LiveAt(v, seed.key, seed.ino)
    && (forall n :: n in v.names && v.names[n] == seed.ino ==> n == Live(seed.key))
    && seed.ino in v.contents && v.contents[seed.ino] == seed.digest
  }

  /** The seed has left the live name, and is retained for recovery. */
  ghost predicate Left(v: View, seed: SeedRecord) {
    Live(seed.key) !in v.names && seed.ino in v.owner && v.owner[seed.ino] == seed.key && Retained(v, seed.ino)
  }

  lemma IntactIsLive(v: View, seed: SeedRecord)
    requires Intact(v, seed)
    ensures SeedLive(v, seed)
  {
  }

  lemma IntactLinks(v: View, seed: SeedRecord)
    requires Intact(v, seed)
    ensures |set n | n in v.names && v.names[n] == seed.ino| == 1
  {
    assert (set n | n in v.names && v.names[n] == seed.ino) == {Live(seed.key)};
  }

  /** A seed that is live with one link is intact; with two, one is a leftover temporary. */
  lemma SeedLinks(v: View, seed: SeedRecord)
    requires SeedLive(v, seed)
    ensures Intact(v, seed) || exists n: Name :: n.Seed? && n in v.names && v.names[n] == seed.ino
    ensures |set n | n in v.names && v.names[n] == seed.ino| == if Intact(v, seed) then 1 else 2
  {
    if !Intact(v, seed) {
      var m :| m in v.names && v.names[m] == seed.ino && m != Live(seed.key);
      assert m.Seed?;
      assert (set n | n in v.names && v.names[n] == seed.ino) == {Live(seed.key), m};
    } else {
      IntactLinks(v, seed);
    }
  }

  lemma Leftover(v: View, seed: SeedRecord) returns (name: Name)
    requires SeedLive(v, seed) && |set n | n in v.names && v.names[n] == seed.ino| == 2
    ensures name.Seed? && name in v.names && v.names[name] == seed.ino
  {
    SeedLinks(v, seed);
    name :| name.Seed? && name in v.names && v.names[name] == seed.ino;
  }

  /** The seed is live, and this temporary is still linked to it. */
  ghost predicate LeftoverOf(v: View, seed: SeedRecord, leftover: Name) {
    SeedLive(v, seed) && leftover in v.names && v.names[leftover] == seed.ino
  }

  /** Removing the leftover leaves the seed under its live name only; removing anything else of
      another inode leaves it as it was. */
  lemma LeftoverRemoved(v: View, n: View, seed: SeedRecord, name: Name)
    requires SeedLive(v, seed) && name.Seed? && name in v.names && v.names[name] == seed.ino
    requires n.names == v.names - {name} && n.contents == v.contents
    ensures Intact(n, seed)
  {
  }

  lemma SameNamesLive(v: View, n: View, seed: SeedRecord)
    requires SeedLive(v, seed) && n.names == v.names && n.contents == v.contents
    ensures SeedLive(n, seed)
  {
  }

  lemma OnlyLeftover(v: View, seed: SeedRecord, leftover: Name, name: Name)
    requires SeedLive(v, seed) && leftover.Seed? && leftover in v.names && v.names[leftover] == seed.ino
    requires !name.Live? && name in v.names && v.names[name] == seed.ino
    ensures name == leftover
  {
  }

  lemma SeedIsLive(v: View, seed: SeedRecord)
    ensures SeedLive(v, seed) || Intact(v, seed) ==> LiveAt(v, seed.key, seed.ino)
  {
  }

  lemma LiveOwner(v: View, key: Key)
    requires Valid(v) && Live(key) in v.names
    ensures v.names[Live(key)] in v.owner && v.owner[v.names[Live(key)]] == key
    ensures v.names[Live(key)] in v.contents
  {
  }

  lemma PrivateKept(v: View, n: View, name: Name)
    requires EditorActed(v, n) && !name.Live?
    ensures name in n.names <==> name in v.names
    ensures name in n.names ==> n.names[name] == v.names[name]
  {
  }

  lemma LiveIsCurrent(v: View, key: Key, ino: Ino)
    requires LiveAt(v, key, ino)
    ensures Current(v, key, ino)
  {
  }

  lemma CurrentKept(v: View, n: View, key: Key, ino: Ino)
    requires EditorActed(v, n) && ino in v.owner && v.owner[ino] == key
    ensures ino in n.owner && n.owner[ino] == key
    ensures Current(v, key, ino) ==> Current(n, key, ino)
  {
  }

  lemma EditorCalm(v: View, n: View, key: Key)
    requires Valid(v) && EditorActed(v, n)
    ensures Calm(v, n, key)
  {
    hide Only;
    EditorOnly(v, n, key);
    if key !in n.touched { assert SameLive(v, n, key); }
  }

  /** A live file has no second name. */
  ghost predicate OneName(v: View, key: Key) {
    Live(key) in v.names ==> forall n :: n in v.names && v.names[n] == v.names[Live(key)] ==> n == Live(key)
  }

  /** The live file, if there is one, is the seed, which may have a leftover name, or has no second name. */
  ghost predicate Fit(v: View, seed: SeedRecord) { SeedLive(v, seed) || OneName(v, seed.key) }

  lemma LinksOneName(v: View, key: Key, ino: Ino)
    requires LiveAt(v, key, ino) && |set n | n in v.names && v.names[n] == ino| == 1
    ensures OneName(v, key)
  {
    var links := set n | n in v.names && v.names[n] == ino;
    assert Live(key) in links && |links - {Live(key)}| == 0;
    forall n | n in v.names && v.names[n] == ino ensures n == Live(key) {
      assert n in links && n !in links - {Live(key)};
    }
  }

  /** The live file is the seed with the contents it was made with. */
  ghost predicate Unchanged(v: View, seed: SeedRecord) {
    LiveAt(v, seed.key, seed.ino) && seed.ino in v.contents && v.contents[seed.ino] == seed.digest
  }

  /** The live names and everything that was written are as they were. */
  ghost predicate Still(v: View, n: View) { n.contents == v.contents && forall k: Key :: SameLive(v, n, k) }

  /** The same, except for the live name of this file. */
  ghost predicate Beside(v: View, n: View, key: Key) { n.contents == v.contents && forall k: Key :: k != key ==> SameLive(v, n, k) }

  lemma StillIsBeside(v: View, n: View, key: Key)
    ensures Still(v, n) <==> Beside(v, n, key) && SameLive(v, n, key)
  {
  }

  lemma StillUnchanged(v: View, n: View, seed: SeedRecord)
    requires n.contents == v.contents && SameLive(v, n, seed.key)
    ensures Unchanged(v, seed) <==> Unchanged(n, seed)
  {
  }

  lemma StillSame(v: View, n: View)
    ensures n.names == v.names && n.contents == v.contents ==> Still(v, n)
    ensures Still(v, n) ==> n.contents == v.contents
  {
  }

  lemma StillWithout(v: View, n: View, name: Name)
    requires !name.Live? && n.contents == v.contents
    ensures n.names == v.names || n.names == v.names - {name} ==> Still(v, n)
  {
  }

  lemma StillTwice(a: View, b: View, c: View)
    ensures Still(a, b) && Still(b, c) ==> Still(a, c)
  {
    forall k: Key ensures SameLive(a, b, k) && SameLive(b, c, k) ==> SameLive(a, c, k) {}
  }

  lemma BesideTwice(a: View, b: View, c: View, key: Key)
    ensures Beside(a, b, key) && Beside(b, c, key) ==> Beside(a, c, key)
  {
    forall k: Key ensures SameLive(a, b, k) && SameLive(b, c, k) ==> SameLive(a, c, k) {}
  }

  lemma BesideClaimed(v: View, n: View, key: Key, token: nat)
    requires Live(key) in v.names && n.names == Claimed(v.names, key, token) && n.contents == v.contents
    ensures Beside(v, n, key)
  {
  }

  lemma BesideLinked(v: View, n: View, key: Key, ino: Ino)
    requires n.names == v.names[Live(key) := ino] && n.contents == v.contents
    ensures Beside(v, n, key)
  {
  }

  /** The live file of the key is none of the seeds with the contents it was made with. */
  ghost predicate NoneUnchanged(v: View, created: seq<SeedRecord>, key: Key) {
    forall j :: 0 <= j < |created| && created[j].key == key ==> !Unchanged(v, created[j])
  }

  /** Nothing that was written has changed, and no live name but those of unchanged seeds. */
  ghost predicate AsideFrom(v: View, n: View, created: seq<SeedRecord>) {
    n.contents == v.contents && forall k :: NoneUnchanged(v, created, k) ==> SameLive(v, n, k)
  }

  lemma AsideFromItself(v: View, created: seq<SeedRecord>)
    ensures AsideFrom(v, v, created)
  {
  }

  lemma AsideFromMeans(v: View, n: View, created: seq<SeedRecord>)
    requires AsideFrom(v, n, created)
    ensures n.contents == v.contents && forall k :: NoneUnchanged(v, created, k) ==> SameLive(v, n, k)
  {
  }

  lemma OneMoreAside(v: View, b: View, n: View, created: seq<SeedRecord>, i: nat)
    requires i < |created| && AsideFrom(v, b, created) && Beside(b, n, created[i].key)
    requires !Unchanged(b, created[i]) ==> Still(b, n)
    ensures AsideFrom(v, n, created)
  {
    hide Unchanged;
    forall k | NoneUnchanged(v, created, k) ensures SameLive(v, n, k) {
      assert SameLive(v, b, k);
      if k == created[i].key { StillUnchanged(v, b, created[i]); }
      assert SameLive(b, n, k);
    }
  }

  lemma CaptureIsBack(v: View, m: View, n: View, seed: SeedRecord, token: nat)
    requires Valid(v) && Live(seed.key) in v.names && m.names == Claimed(v.names, seed.key, token) && m.contents == v.contents
    requires Beside(m, n, seed.key) && !Unchanged(v, seed)
    requires !(m.names[Rollback(token)] == seed.ino && seed.ino in m.contents && m.contents[seed.ino] == seed.digest) ==>
               LiveAt(n, seed.key, m.names[Rollback(token)])
    ensures Still(v, n)
  {
    hide Valid;
    BesideClaimed(v, m, seed.key, token);
    BesideTwice(v, m, n, seed.key);
  }

  /** When a rollback moved a file off its live name: the directory just before, and how much the
      editor had done. */
  datatype Capture = NoCapture | Captured(view: View, acts: nat)

  lemma OneNameLinks(v: View, key: Key)
    requires OneName(v, key) && Live(key) in v.names
    ensures |set n | n in v.names && v.names[n] == v.names[Live(key)]| == 1
  {
    assert (set n | n in v.names && v.names[n] == v.names[Live(key)]) == {Live(key)};
  }

  lemma OneNameStays(v: View, n: View, key: Key)
    requires Valid(v) && Valid(n) && EditorActed(v, n) && key !in n.touched && OneName(v, key)
    ensures OneName(n, key)
  {
    hide Kept, Journaled, NeverOverwrites, Current;
    assert SameLive(v, n, key);
  }

  lemma OneNameBeside(v: View, n: View, other: Key, key: Key)
    requires Valid(v) && Valid(n) && Only(v, n, other) && key != other && key !in n.touched && OneName(v, key)
    ensures OneName(n, key)
  {
    hide Kept, Journaled, NeverOverwrites;
    assert SameLive(v, n, key);
    if Live(key) in n.names {
      forall name | name in n.names && n.names[name] == n.names[Live(key)] ensures name == Live(key) {
        if !name.Live? { assert Foreign(n, name, other); }
      }
    }
  }

  lemma FitStays(v: View, n: View, seed: SeedRecord)
    requires Valid(v) && Valid(n) && EditorActed(v, n) && seed.key !in n.touched && Fit(v, seed)
    ensures Fit(n, seed)
  {
    hide Valid, EditorActed, SeedLive, OneName;
    if SeedLive(v, seed) { SeedStays(v, n, seed); } else { OneNameStays(v, n, seed.key); }
  }

  lemma FitBeside(v: View, n: View, other: Key, seed: SeedRecord)
    requires Valid(v) && Valid(n) && Only(v, n, other) && seed.key != other && seed.key !in n.touched && Fit(v, seed)
    ensures Fit(n, seed)
  {
    hide Valid, Only, SeedLive, OneName, Intact, Left;
    if SeedLive(v, seed) { OthersStay(v, n, other, seed); } else { OneNameBeside(v, n, other, seed.key); }
  }

  lemma LiveSame(v: View, n: View, key: Key, ino: Ino)
    requires LiveAt(v, key, ino)
    ensures SameLive(v, n, key) ==> LiveAt(n, key, ino)
  {
  }

  lemma IntactHasOneName(v: View, seed: SeedRecord)
    requires Intact(v, seed)
    ensures OneName(v, seed.key)
  {
  }

  lemma OneNameIntact(v: View, seed: SeedRecord)
    requires OneName(v, seed.key) && LiveAt(v, seed.key, seed.ino) && seed.ino in v.contents && v.contents[seed.ino] == seed.digest
    ensures Intact(v, seed)
  {
  }

  lemma SeedStays(v: View, n: View, seed: SeedRecord)
    requires Valid(v) && Valid(n) && EditorActed(v, n) && seed.key !in n.touched
    ensures SeedLive(v, seed) ==> SeedLive(n, seed)
    ensures Intact(v, seed) ==> Intact(n, seed)
  {
    hide Kept, Journaled, NeverOverwrites, Current;
    assert SameLive(v, n, seed.key);
  }

  /** What is done to another file leaves a seed where it is, live or retained. */
  lemma OthersStay(v: View, n: View, key: Key, seed: SeedRecord)
    requires Valid(v) && Valid(n) && Only(v, n, key) && seed.key != key && seed.key !in n.touched
    ensures SeedLive(v, seed) ==> SeedLive(n, seed)
    ensures Intact(v, seed) ==> Intact(n, seed)
    ensures Left(v, seed) ==> Left(n, seed)
    ensures SameLive(v, n, seed.key)
  {
    hide Kept, Journaled, NeverOverwrites;
    assert SameLive(v, n, seed.key);
    forall name | name in n.names && n.names[name] == seed.ino && seed.ino in v.owner && v.owner[seed.ino] == seed.key
      ensures name == Live(seed.key) || (name in v.names && v.names[name] == seed.ino)
    {
      if !name.Live? { assert Foreign(n, name, key); }
    }
    if Left(v, seed) {
      var r :| Rollback(r) in v.names && v.names[Rollback(r)] == seed.ino;
      assert Foreign(v, Rollback(r), key);
    }
  }

  /** The file under a retained name, and, if it is the seed nobody touches, nothing at the live name. */
  ghost predicate Aside(v: View, seed: SeedRecord, token: nat, intact: bool) {
    && Rollback(token) in v.names && v.names[Rollback(token)] in v.owner && v.owner[v.names[Rollback(token)]] == seed.key
    && (intact ==> v.names[Rollback(token)] == seed.ino && Live(seed.key) !in v.names
                   && seed.ino in v.contents && v.contents[seed.ino] == seed.digest)
  }

  lemma Moved(v: View, n: View, seed: SeedRecord, token: nat)
    requires Live(seed.key) in v.names && v.names[Live(seed.key)] in v.owner && v.owner[v.names[Live(seed.key)]] == seed.key
    requires n.names == Claimed(v.names, seed.key, token) && n.owner == v.owner && n.contents == v.contents
    ensures Aside(n, seed, token, false) && (Intact(v, seed) ==> Aside(n, seed, token, true))
  {
  }

  lemma AsideKept(v: View, n: View, seed: SeedRecord, token: nat)
    requires EditorActed(v, n)
    ensures Aside(v, seed, token, false) ==> Aside(n, seed, token, false)
    ensures Aside(v, seed, token, true) && seed.key !in n.touched ==> Aside(n, seed, token, true)
  {
    if Aside(v, seed, token, true) && seed.key !in n.touched {
      assert SameLive(v, n, seed.key);
    }
  }

  lemma AsideNamed(v: View, seed: SeedRecord, token: nat)
    requires Valid(v) && Aside(v, seed, token, false)
    ensures Rollback(token) in v.names && v.names[Rollback(token)] in v.contents
    ensures v.names[Rollback(token)] in v.owner && v.owner[v.names[Rollback(token)]] == seed.key
    ensures Aside(v, seed, token, true) ==> v.names[Rollback(token)] == seed.ino && v.contents[seed.ino] == seed.digest
  {
  }

  lemma IntactHolds(v: View, seed: SeedRecord)
    ensures Intact(v, seed) ==> seed.ino in v.contents && v.contents[seed.ino] == seed.digest
  {
  }

  lemma AsideHasLeft(v: View, seed: SeedRecord, token: nat)
    requires Aside(v, seed, token, true)
    ensures Left(v, seed)
  {
    RetainedAs(v, token);
  }

  // ---------- several seeds ----------

  ghost predicate DistinctKeys(records: seq<SeedRecord>) {
    forall i, j :: 0 <= i < j < |records| ==> records[i].key != records[j].key
  }

  /** The seed's turn has not come. */
  ghost predicate Waiting(v: View, n: View, seed: SeedRecord) {
    seed.key !in n.touched ==> (SeedLive(v, seed) ==> SeedLive(n, seed)) && SameLive(v, n, seed.key)
  }

  /** The seed has been rolled back: one that was live has left and is retained, and a live name that
      was not the seed's is as it was. */
  ghost predicate RolledBack(v: View, n: View, seed: SeedRecord) {
    seed.key !in n.touched ==>
      (SeedLive(v, seed) ==> Left(n, seed)) && (!LiveAt(v, seed.key, seed.ino) ==> SameLive(v, n, seed.key))
  }

  ghost predicate Unlisted(records: seq<SeedRecord>, key: Key) {
    forall j :: 0 <= j < |records| ==> records[j].key != key
  }

  lemma WaitingItself(v: View, seed: SeedRecord)
    ensures Waiting(v, v, seed)
  {
  }

  lemma SelfRolledBack(v: View, b: View, c: View, seed: SeedRecord)
    requires Waiting(v, b, seed) && Only(b, c, seed.key)
    requires SeedLive(b, seed) && seed.key !in c.touched ==> Left(c, seed)
    requires !LiveAt(b, seed.key, seed.ino) && seed.key !in c.touched ==> SameLive(b, c, seed.key)
    ensures RolledBack(v, c, seed)
  {
    hide SeedLive, Left, Only;
    TouchedGrows(b, c, seed.key);
  }

  lemma OtherRolledBack(v: View, b: View, c: View, key: Key, seed: SeedRecord)
    requires Valid(b) && Valid(c) && Only(b, c, key) && seed.key != key
    ensures Waiting(v, b, seed) ==> Waiting(v, c, seed)
    ensures RolledBack(v, b, seed) ==> RolledBack(v, c, seed)
  {
    hide Valid, SeedLive, Left, Only;
    TouchedGrows(b, c, key);
    if seed.key !in c.touched {
      OthersStay(b, c, key, seed);
    }
  }

  lemma OtherSame(v: View, b: View, c: View, key: Key, k: Key)
    requires Only(b, c, key) && k != key
    ensures (k !in b.touched ==> SameLive(v, b, k)) ==> (k !in c.touched ==> SameLive(v, c, k))
  {
    if k !in c.touched { assert SameLive(b, c, k); }
  }

  // ---------- making a seed ----------

  /** The temporary is the only name of the seed's inode. */
  ghost predicate Drafted(v: View, seed: SeedRecord, token: nat) {
    && Seed(token) in v.names && v.names[Seed(token)] == seed.ino
    && (forall n :: n in v.names && v.names[n] == seed.ino ==> n == Seed(token))
    && seed.ino in v.contents && v.contents[seed.ino] == seed.digest
    && seed.ino in v.owner && v.owner[seed.ino] == seed.key
  }

  lemma DraftStays(v: View, n: View, seed: SeedRecord, token: nat)
    requires Valid(v) && Valid(n) && EditorActed(v, n) && seed.key !in n.touched && Drafted(v, seed, token)
    ensures Drafted(n, seed, token)
  {
    hide Kept, Journaled, NeverOverwrites, Current;
    assert SameLive(v, n, seed.key);
    assert v.names[Seed(token)] == n.names[Seed(token)];
  }

  lemma DraftNamed(v: View, seed: SeedRecord, token: nat)
    requires Drafted(v, seed, token)
    ensures Seed(token) in v.names && v.names[Seed(token)] == seed.ino && seed.ino in v.owner && v.owner[seed.ino] == seed.key
  {
  }

  lemma SameDraft(v: View, n: View, seed: SeedRecord, token: nat)
    requires Drafted(v, seed, token) && n.names == v.names && n.contents == v.contents && n.owner == v.owner
    ensures Drafted(n, seed, token)
  {
  }

  lemma DraftLinked(v: View, n: View, seed: SeedRecord, token: nat)
    requires Drafted(v, seed, token) && n.names == v.names[Live(seed.key) := seed.ino] && n.contents == v.contents
    ensures SeedLive(n, seed)
  {
  }

  lemma DraftWritten(v: View, key: Key, text: Contents, ino: Ino, token: nat)
    requires Valid(v) && ino !in v.contents && Seed(token) !in v.names
    ensures Drafted(SeedWritten(v, key, text, ino, token), SeedRecord(key, ino, text), token)
  {
    hide Kept, Journaled, NeverOverwrites;
    forall n | n in v.names ensures v.names[n] != ino { assert v.names[n] in v.owner; }
  }

  lemma JournalOnly(v: View, record: SeedRecord, key: Key)
    ensures Only(v, v.(journal := v.journal + [record]), key)
  {
  }

  /** What seeding has done for one record, when the editor did not touch its file: the live name was
      free, and is free still or the seed's. */
  ghost predicate Attempted(v: View, n: View, seed: SeedRecord) {
    seed.key !in n.touched ==> Live(seed.key) !in v.names && (SeedLive(n, seed) || Live(seed.key) !in n.names)
  }

  ghost predicate Created(n: View, seed: SeedRecord, ok: bool) {
    seed.key !in n.touched ==> SeedLive(n, seed) && (ok ==> Intact(n, seed))
  }

  lemma OtherAttempted(v: View, b: View, c: View, key: Key, seed: SeedRecord)
    requires Valid(b) && Valid(c) && Only(b, c, key) && seed.key != key
    ensures Attempted(v, b, seed) ==> Attempted(v, c, seed)
    ensures Created(b, seed, true) ==> Created(c, seed, true)
  {
    hide Valid, SeedLive, Intact, Only;
    TouchedGrows(b, c, key);
    if seed.key !in c.touched {
      OthersStay(b, c, key, seed);
    }
  }

  ghost predicate DistinctFiles(files: seq<(Key, Contents)>) {
    forall i, j :: 0 <= i < j < |files| ==> files[i].0 != files[j].0
  }

  /** A record of seeding one of the files. */
  ghost predicate RecordOf(files: seq<(Key, Contents)>, r: SeedRecord) {
    exists i :: 0 <= i < |files| && files[i] == (r.key, r.digest)
  }

  /** What seeding a list of files has done to the live names the editor did not touch. */
  ghost predicate Prepared(v: View, n: View, files: seq<(Key, Contents)>, created: seq<SeedRecord>, attempted: seq<SeedRecord>, ok: bool) {
    && n.journal == v.journal + attempted
    && DistinctKeys(attempted) && DistinctKeys(created)
    && (forall r :: r in attempted ==> RecordOf(files, r) && Attempted(v, n, r))
    && (forall r :: r in created ==> r in attempted && Created(n, r, ok))
    && (forall k :: k !in n.touched && Unlisted(created, k) ==> SameLive(v, n, k))
  }

  lemma PreparedNothing(v: View)
    ensures Prepared(v, v, [], [], [], true)
  {
  }

  /** What seeding one file has done. */
  ghost predicate PreparedOne(v: View, n: View, key: Key, text: Contents, created: seq<SeedRecord>, attempted: seq<SeedRecord>, ok: bool) {
    && Only(v, n, key) && n.journal == v.journal + attempted
    && |attempted| <= 1 && (created == [] || created == attempted)
    && (attempted != [] ==> attempted[0].key == key && attempted[0].digest == text && Attempted(v, n, attempted[0]))
    && (created != [] ==> Created(n, created[0], ok))
    && (created == [] && key !in n.touched ==> SameLive(v, n, key))
  }

  lemma NotYet(files: seq<(Key, Contents)>, i: nat, r: SeedRecord)
    requires DistinctFiles(files) && i < |files| && RecordOf(files[..i], r)
    ensures r.key != files[i].0 && RecordOf(files[..i + 1], r)
  {
    var j :| 0 <= j < |files[..i]| && files[..i][j] == (r.key, r.digest);
    assert files[..i + 1][j] == (r.key, r.digest) && files[j].0 != files[i].0;
  }

  lemma {:induction false} OneMorePrepared(v: View, b: View, c: View, files: seq<(Key, Contents)>, i: nat,
      created: seq<SeedRecord>, attempted: seq<SeedRecord>, one: seq<SeedRecord>, tried: seq<SeedRecord>, ok: bool)
    requires DistinctFiles(files) && i < |files| && Valid(b) && Valid(c)
    requires Prepared(v, b, files[..i], created, attempted, true)
    requires PreparedOne(b, c, files[i].0, files[i].1, one, tried, ok)
    ensures Prepared(v, c, files[..i + 1], created + one, attempted + tried, ok)
  {
    hide Valid, Only, SeedLive, Intact, Attempted, Created, SameLive, RecordOf;
    var key := files[i].0;
    TouchedGrows(b, c, key);
    forall r | r in attempted
      ensures r.key != key && RecordOf(files[..i + 1], r) && Attempted(v, c, r)
      ensures r in created ==> Created(c, r, ok)
    {
      NotYet(files, i, r);
      OtherAttempted(v, b, c, key, r);
      if r in created { CreatedAnyway(c, r, ok); }
    }
    if tried != [] {
      assert files[..i + 1][i] == (tried[0].key, tried[0].digest);
      IsRecord(files[..i + 1], i, tried[0]);
      FreeBefore(v, b, c, created, tried[0]);
    }
    forall k | k !in c.touched && Unlisted(created + one, k) ensures SameLive(v, c, k) {
      UnlistedBoth(created, one, k);
      if k != key {
        OtherSame(v, b, c, key, k);
      } else {
        assert one == [];
        SameLiveTwice(v, b, c, k);
      }
    }
    forall r | r in tried ensures r == tried[0] {}
    assert v.journal + attempted + tried == v.journal + (attempted + tried);
  }

  lemma PreparedGrows(v: View, n: View, key: Key, text: Contents, created: seq<SeedRecord>, attempted: seq<SeedRecord>, ok: bool)
    requires PreparedOne(v, n, key, text, created, attempted, ok)
    ensures v.touched <= n.touched
  {
  }

  lemma StillLive(v: View, n: View, key: Key, text: Contents, created: seq<SeedRecord>, attempted: seq<SeedRecord>, ok: bool, k: Key)
    requires PreparedOne(v, n, key, text, created, attempted, ok) && k != key
    requires k !in v.touched ==> Live(k) in v.names
    ensures k !in n.touched ==> Live(k) in n.names
  {
    if k !in n.touched { assert SameLive(v, n, k); }
  }

  lemma PreparedRecords(v: View, n: View, files: seq<(Key, Contents)>, created: seq<SeedRecord>, attempted: seq<SeedRecord>, ok: bool)
    requires Prepared(v, n, files, created, attempted, ok)
    ensures n.journal[|v.journal|..] == attempted && |v.journal| <= |n.journal|
    ensures DistinctKeys(attempted) && DistinctKeys(created)
  {
  }

  lemma IsRecord(files: seq<(Key, Contents)>, i: nat, r: SeedRecord)
    requires i < |files| && files[i] == (r.key, r.digest)
    ensures RecordOf(files, r)
  {
  }

  lemma CreatedAnyway(n: View, seed: SeedRecord, ok: bool)
    requires Created(n, seed, true)
    ensures Created(n, seed, ok)
  {
  }

  lemma UnlistedBoth(a: seq<SeedRecord>, b: seq<SeedRecord>, key: Key)
    requires Unlisted(a + b, key)
    ensures Unlisted(a, key) && Unlisted(b, key)
  {
    forall j | 0 <= j < |a| ensures a[j].key != key { assert (a + b)[j].key != key; }
    forall j | 0 <= j < |b| ensures b[j].key != key { assert (a + b)[|a| + j].key != key; }
  }

  lemma FreeBefore(v: View, b: View, c: View, created: seq<SeedRecord>, r: SeedRecord)
    requires b.touched <= c.touched && Attempted(b, c, r)
    requires forall k :: k !in b.touched && Unlisted(created, k) ==> SameLive(v, b, k)
    requires forall j :: 0 <= j < |created| ==> created[j].key != r.key
    ensures Attempted(v, c, r)
  {
    assert Unlisted(created, r.key);
  }

  /** After seeding and a rollback that goes through, of the seeds that are known to have been made or
      of everything that the journal says was attempted, every live name that the editor has not
      touched is as it was before, and what was seeded is retained. */
  lemma UndoneAll(v: View, b: View, b': View, c: View, files: seq<(Key, Contents)>, created: seq<SeedRecord>, attempted: seq<SeedRecord>,
      records: seq<SeedRecord>, ok: bool)
    requires Valid(b) && Valid(b') && Prepared(v, b, files, created, attempted, ok) && EditorActed(b, b')
    requires records == created || records == attempted
    requires b'.touched <= c.touched && forall j :: 0 <= j < |records| ==> RolledBack(b', c, records[j])
    requires forall k :: k !in c.touched && Unlisted(records, k) ==> SameLive(b', c, k)
    ensures forall k :: k !in c.touched ==> SameLive(v, c, k)
    ensures forall r :: r in created && r.key !in c.touched ==> Left(c, r)
  {
    hide Valid, EditorActed, SeedLive, Intact, Left, RecordOf;
    EditorGrows(b, b');
    forall r | r in created && r.key !in c.touched ensures Left(c, r) {
      assert r in records && Created(b, r, ok);
      SeedStays(b, b', r);
      var j :| 0 <= j < |records| && records[j] == r;
      assert RolledBack(b', c, records[j]);
    }
    forall k | k !in c.touched ensures SameLive(v, c, k) {
      EditorLive(b, b', k);
      if Unlisted(records, k) {
        ListedAll(created, records, k);
        assert SameLive(v, b, k) && SameLive(b', c, k);
      } else {
        var j :| 0 <= j < |records| && records[j].key == k;
        var r := records[j];
        assert r in attempted && Attempted(v, b, r) && RolledBack(b', c, r);
        SeedIsLive(b', r);
        if SeedLive(b, r) {
          SeedStays(b, b', r);
          LeftIsFree(c, r);
        }
      }
    }
  }

  lemma LeftIsFree(v: View, seed: SeedRecord)
    requires Left(v, seed)
    ensures Live(seed.key) !in v.names
  {
  }

  lemma ListedAll(created: seq<SeedRecord>, records: seq<SeedRecord>, k: Key)
    requires (forall r :: r in created ==> r in records) && Unlisted(records, k)
    ensures Unlisted(created, k)
  {
    forall j | 0 <= j < |created| ensures created[j].key != k {
      assert created[j] in created;
      assert created[j] in records;
      var i :| 0 <= i < |records| && records[i] == created[j];
      assert records[i].key != k;
    }
  }

  lemma EditorGrows(v: View, n: View)
    requires EditorActed(v, n)
    ensures v.touched <= n.touched && n.journal == v.journal
  {
  }

  lemma EditorLive(v: View, n: View, key: Key)
    requires EditorActed(v, n)
    ensures key !in n.touched ==> SameLive(v, n, key)
  {
    if key !in n.touched { assert SameLive(v, n, key); }
  }

  lemma OneNameAfter(v: View, n: View, key: Key, text: Contents, created: seq<SeedRecord>, attempted: seq<SeedRecord>, ok: bool, other: Key)
    requires Valid(v) && Valid(n) && PreparedOne(v, n, key, text, created, attempted, ok) && other != key && other !in n.touched && OneName(v, other)
    ensures OneName(n, other)
  {
    hide Valid, Only, OneName;
    OneNameBeside(v, n, key, other);
  }

  /** The editor has touched none of the files, and none that is live had a second name. */
  ghost predicate Undisturbed(v: View, n: View, files: seq<(Key, Contents)>) {
    forall j :: 0 <= j < |files| ==> files[j].0 !in n.touched && OneName(v, files[j].0)
  }

  /** What preparation has made or attempted is no obstacle to its rollback. */
  lemma FitRecords(v: View, b: View, b': View, n: View, files: seq<(Key, Contents)>, i: nat, created: seq<SeedRecord>, attempted: seq<SeedRecord>,
      records: seq<SeedRecord>, ok: bool)
    requires Valid(b) && Valid(b') && i <= |files| && Prepared(v, b, files[..i], created, attempted, ok) && EditorActed(b, b')
    requires records == created || records == attempted
    requires b'.touched <= n.touched && Undisturbed(v, n, files)
    ensures forall r :: r in records ==> r.key !in n.touched && Fit(b', r)
  {
    hide Valid, EditorActed, SeedLive, Only;
    EditorGrows(b, b');
    forall r | r in records ensures r.key !in n.touched && Fit(b', r) {
      assert r in attempted && RecordOf(files[..i], r) && Attempted(v, b, r);
      assert r.key !in n.touched;
      assert Fit(b, r);
      FitStays(b, b', r);
    }
  }

  // ---------- the assumption on the editor's descriptors ----------

  const EMPTY: View := View(map[], map[], [], map[], map[], map[], map[], {}, [], {})

  /** A file is seeded in an empty directory: the temporary is written, journaled, linked and removed. */
  function Seeded(key: Key): View {
    var written := SeedWritten(EMPTY, key, "seed", 0, 0);
    var journaled := written.(journal := [SeedRecord(key, 0, "seed")]);
    var live := Called(journaled, journaled.names[Live(key) := 0], {0});
    Called(live, live.names - {Seed(0)}, {0})
  }

  /** The seed is rolled back after that.  When it has been inspected the editor replaces it; the
      rename captures the replacement, and the link puts it back. */
  function PutBackLive(key: Key): View {
    var replaced := ReplacedBy(Seeded(key), key, "a", 1);
    var claimed := Called(replaced, Claimed(replaced.names, key, 0), replaced.placed);
    Called(claimed, claimed.names[Live(key) := 1], claimed.placed)
  }

  /** A save through a descriptor that the editor opened before its own replacement of the file. */
  function SavedOlder(v: View, key: Key, ino: Ino, text: Contents): View {
    v.(contents := v.contents[ino := text], newest := v.newest[key := ino], saved := v.saved[key := text])
  }

  /** The editor replaces the live file again, and saves through the descriptor it had before. */
  function SavedAgain(key: Key): View {
    SavedOlder(ReplacedBy(PutBackLive(key), key, "b", 2), key, 1, "c")
  }

  /** The assumption is needed: from an empty directory, a file is seeded and rolled back, and the
      editor replaces it in between.  Between the link that puts the captured file back and the removal
      of its retained name, the editor replaces the live file again and then saves through its older
      descriptor; the removal destroys that save. */
  lemma OlderDescriptorLoses(key: Key)
    ensures Valid(EMPTY) && Valid(Seeded(key)) && Intact(Seeded(key), SeedRecord(key, 0, "seed")) && Valid(PutBackLive(key))
    ensures Valid(ReplacedBy(PutBackLive(key), key, "b", 2))
    ensures var v := SavedAgain(key); NewestSaved(v, key) && !NewestSaved(Called(v, v.names - {Rollback(0)}, v.placed), key)
  {
    hide Valid, Seeded, PutBackLive, ReplacedBy, SavedAgain, NewestSaved, Called, Intact;
    EmptyValid();
    SeededValid(key);
    PutBackValid(key);
    ReplacedKeeps(PutBackLive(key), key, "b", 2);
    SavedAgainIs(key);
    OnlyOneNameLost(SavedAgain(key), key);
  }

  lemma EmptyValid()
    ensures Valid(EMPTY)
  {
  }

  lemma SeededValid(key: Key)
    requires Valid(EMPTY)
    ensures Valid(Seeded(key)) && Intact(Seeded(key), SeedRecord(key, 0, "seed"))
    ensures Seeded(key).names == map[Live(key) := 0] && Seeded(key).contents == map[0 := "seed"]
  {
    hide Valid;
    var written := SeedWritten(EMPTY, key, "seed", 0, 0);
    SeedWrittenKeeps(EMPTY, key, "seed", 0, 0);
    JournalGrows(written, SeedRecord(key, 0, "seed"));
    var journaled := written.(journal := [SeedRecord(key, 0, "seed")]);
    assert written.journal + [SeedRecord(key, 0, "seed")] == journaled.journal;
    LinkedKeeps(journaled, key, 0, {0});
    var live := Called(journaled, journaled.names[Live(key) := 0], {0});
    RemovedKeeps(live, Seed(0), key);
    assert live.names - {Seed(0)} == map[Live(key) := 0];
  }

  lemma PutBackNames(key: Key)
    requires Seeded(key).names == map[Live(key) := 0] && Seeded(key).contents == map[0 := "seed"]
    ensures var replaced := ReplacedBy(Seeded(key), key, "a", 1);
            && replaced.names == map[Live(key) := 1] && Claimed(replaced.names, key, 0) == map[Rollback(0) := 1]
            && PutBackLive(key).names == map[Live(key) := 1, Rollback(0) := 1] && PutBackLive(key).contents == map[0 := "seed", 1 := "a"]
  {
    hide Seeded;
    assert Claimed(map[Live(key) := 1], key, 0) == map[Rollback(0) := 1];
  }

  lemma PutBackValid(key: Key)
    requires Valid(Seeded(key)) && Seeded(key).names == map[Live(key) := 0] && Seeded(key).contents == map[0 := "seed"]
    ensures Valid(PutBackLive(key)) && PutBackLive(key).names == map[Live(key) := 1, Rollback(0) := 1]
    ensures PutBackLive(key).contents == map[0 := "seed", 1 := "a"]
  {
    hide Valid, Seeded, Claimed;
    PutBackNames(key);
    var replaced := ReplacedBy(Seeded(key), key, "a", 1);
    ReplacedKeeps(Seeded(key), key, "a", 1);
    ClaimedKeeps(replaced, key, 0);
    var claimed := Called(replaced, Claimed(replaced.names, key, 0), replaced.placed);
    PlacedJournaled(claimed);
    LinkedKeeps(claimed, key, 1, claimed.placed);
  }

  lemma PlacedJournaled(v: View)
    requires Valid(v)
    ensures forall i :: i in v.placed ==> Journaled(v.journal, i)
  {
  }

  lemma SavedAgainIs(key: Key)
    requires PutBackLive(key).names == map[Live(key) := 1, Rollback(0) := 1] && PutBackLive(key).contents == map[0 := "seed", 1 := "a"]
    ensures var v := SavedAgain(key);
            v.names == map[Live(key) := 2, Rollback(0) := 1] && v.contents == map[0 := "seed", 1 := "c", 2 := "b"] && key in v.saved && v.saved[key] == "c"
  {
    hide PutBackLive;
    assert map[Live(key) := 1, Rollback(0) := 1][Live(key) := 2] == map[Live(key) := 2, Rollback(0) := 1];
    TwoTexts();
  }

  lemma TwoTexts()
    ensures var before: map<Ino, Contents> := map[0 := "seed", 1 := "a"]; before[2 := "b"][1 := "c"] == map[0 := "seed", 1 := "c", 2 := "b"]
  {
  }

  lemma OnlyOneNameLost(v: View, key: Key)
    requires v.names == map[Live(key) := 2, Rollback(0) := 1] && v.contents == map[0 := "seed", 1 := "c", 2 := "b"]
    requires key in v.saved && v.saved[key] == "c"
    ensures NewestSaved(v, key) && !NewestSaved(Called(v, v.names - {Rollback(0)}, v.placed), key)
  {
    RetainedAs(v, 0);
    assert v.names - {Rollback(0)} == map[Live(key) := 2];
  }
}
