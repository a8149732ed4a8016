/** Versioned configuration migration and rollback (src/config_migration.rs), with the credential
    files it writes (src/credentials.rs).

    A run is a series of file calls.  It may crash at any of them, or one of them may fail; a write
    may then have got part of its bytes out.  JSON is a parameter: what a configuration file is, and
    what it becomes. */
module ConfigMigration {
  import opened Prelude

  type Bytes = seq<nat>

  datatype Path =
    | Config
    | PreV1
    | PreV2
    | PreRollback
    | Credential(name: nat)
    | ConfigTemp(pid: nat)
    | CredentialTemp(name: nat, pid: nat)

  type Files = map<Path, Bytes>

  /** A legacy credential: its file name, and its value unless that is not a string or blank. */
  datatype Secret = Secret(name: nat, value: Option<Bytes>)

  /** What the bytes of a configuration file are: unusable, of the current schema, or of schema 0 or 1
      with the secrets to move and the bytes it is migrated to. */
  datatype Shape = Unusable | Current | Legacy(version: nat, secrets: seq<Secret>, migrated: Bytes)

  datatype Error = Missing | Invalid | Failed

  // ---- File calls -----------------------------------------------------------------------------------------------

  /** Exclusive creation, writing a file just created, renaming, a call without effect on contents
      (permissions, directory sync), and a check that always fails. */
  datatype Call = Create(path: Path) | Write(path: Path, bytes: Bytes) | Rename(from: Path, to: Path) | Secure | Refuse

  /** At most one call of a run goes wrong: the process crashes, or the call fails and the temporary
      file may be cleaned up. */
  datatype Fault = NoFault | Crash(at: nat, written: nat) | Broken(at: nat, written: nat, cleaned: bool)

  datatype Disk = Disk(files: Files, calls: nat)

  function Hits(fault: Fault, calls: nat): bool {
    !fault.NoFault? && fault.at == calls
  }

  function Partial(files: Files, call: Call, written: nat): Files {
    match call
    case Write(path, bytes) => files[path := if written < |bytes| then bytes[..written] else bytes]
    case _ => files
  }

  function IsTemp(path: Path): bool {
    path.ConfigTemp? || path.CredentialTemp?
  }

  /** A failed write of a temporary file, and a failed rename of the configuration's, remove it. */
  function Cleanup(files: Files, call: Call): Files {
    match call
    case Write(path, _) => if IsTemp(path) then files - {path} else files
    case Rename(from, _) => if from.ConfigTemp? then files - {from} else files
    case _ => files
  }

  function AfterFault(files: Files, call: Call, fault: Fault): Files
    requires !fault.NoFault?
  {
    var left := Partial(files, call, fault.written);
    if fault.Broken? && fault.cleaned then Cleanup(left, call) else left
  }

  function AfterCall(files: Files, call: Call): Files {
    match call
    case Create(path) => files[path := []]
    case Write(path, bytes) => files[path := bytes]
    case Rename(from, to) => if from in files then files[to := files[from]] - {from} else files
    case Secure => files
    case Refuse => files
  }

  function DoCall(d: Disk, call: Call, fault: Fault): (Disk, bool) {
    if call.Refuse? || (call.Create? && call.path in d.files) then (d, false)
    else if Hits(fault, d.calls) then (Disk(AfterFault(d.files, call, fault), d.calls + 1), false)
    else (Disk(AfterCall(d.files, call), d.calls + 1), true)
  }

  /** The calls in order, up to the first that does not succeed. */
  function Exec(d: Disk, calls: seq<Call>, fault: Fault): (Disk, bool)
    decreases |calls|
  {
    if calls == [] then (d, true) else
    var (next, ok) := DoCall(d, calls[0], fault);
    if ok then Exec(next, calls[1..], fault) else (next, false)
  }

  // ---- The calls of each operation ------------------------------------------------------------------------------

  function BackupCalls(files: Files, path: Path, bytes: Bytes): seq<Call> {
    if path !in files then [Create(path), Write(path, bytes)]
    else if files[path] == bytes then []
    else [Refuse]
  }

  /** A new temporary file is written and renamed over its destination. */
  function StoreCalls(temp: Path, path: Path, bytes: Bytes): seq<Call> {
    [Create(temp), Write(temp, bytes), Rename(temp, path), Secure]
  }

  function AtomicCalls(pid: nat, bytes: Bytes): seq<Call> {
    StoreCalls(ConfigTemp(pid), Config, bytes)
  }

  function SecretCalls(pid: nat, secret: Secret): seq<Call> {
    match secret.value
    case None => [Refuse]
    case Some(value) =>
      if value == [] then [] else
      StoreCalls(CredentialTemp(secret.name, pid), Credential(secret.name), value)
  }

  function AllSecretCalls(pid: nat, secrets: seq<Secret>): seq<Call> {
    if secrets == [] then [] else SecretCalls(pid, secrets[0]) + AllSecretCalls(pid, secrets[1..])
  }

  /** Both backups; the first is only made of a version 0 file. */
  function BackupsCalls(files: Files, version: nat, original: Bytes): seq<Call> {
    (if version == 0 then BackupCalls(files, PreV1, original) else []) + BackupCalls(files, PreV2, original)
  }

  function MigrationCalls(files: Files, pid: nat, original: Bytes, shape: Shape): seq<Call>
    requires shape.Legacy?
  {
    BackupsCalls(files, shape.version, original) + AllSecretCalls(pid, shape.secrets) + AtomicCalls(pid, shape.migrated)
  }

  /** `load_and_migrate`: the files it leaves, and the configuration or an error. */
  function LoadAndMigrate(files: Files, pid: nat, shapeOf: Bytes -> Shape, fault: Fault): (Files, Result<Bytes, Error>) {
    if Config !in files then (files, Err(Missing)) else
    var original := files[Config];
    match shapeOf(original)
    case Unusable => (files, Err(Invalid))
    case Current => (files, Ok(original))
    case Legacy(version, secrets, migrated) =>
      var (d, ok) := Exec(Disk(files, 0), MigrationCalls(files, pid, original, shapeOf(original)), fault);
      (d.files, if ok then Ok(migrated) else Err(Failed))
  }

  function RollbackSource(files: Files): Path {
    if PreV2 in files then PreV2 else PreV1
  }

  function RollbackCalls(files: Files, pid: nat): seq<Call>
    requires RollbackSource(files) in files
  {
    (if Config in files then BackupCalls(files, PreRollback, files[Config]) else [])
    + AtomicCalls(pid, files[RollbackSource(files)])
  }

  /** `rollback`: the files it leaves, and the backup it restored or an error. */
  function Rollback(files: Files, pid: nat, fault: Fault): (Files, Result<Path, Error>) {
    var source := RollbackSource(files);
    if source !in files then (files, Err(Missing)) else
    var (d, ok) := Exec(Disk(files, 0), RollbackCalls(files, pid), fault);
    (d.files, if ok then Ok(source) else Err(Failed))
  }

  lemma {:induction false} ExecConcat(d: Disk, a: seq<Call>, b: seq<Call>, fault: Fault)
    ensures Exec(d, a + b, fault)
            == var (mid, ok) := Exec(d, a, fault); if ok then Exec(mid, b, fault) else (mid, false)
    decreases |a|
  {
    hide DoCall;
    if a == [] {
      assert a + b == b;
    } else {
      assert (a + b)[1..] == a[1..] + b;
      ExecConcat(DoCall(d, a[0], fault).0, a[1..], b, fault);
    }
  }

  // ---- The procedures -------------------------------------------------------------------------------------------

  /** The configuration directory during one run. */
  class Directory {
    var disk: Disk

    constructor (files: Files)
      ensures disk == Disk(files, 0)
    {
      disk := Disk(files, 0);
    }

    /** One file call. */
    method Do(call: Call, fault: Fault) returns (ok: bool)
      modifies this
      ensures (disk, ok) == DoCall(old(disk), call, fault)
    {
      if call.Refuse? || (call.Create? && call.path in disk.files) {
        return false;
      }
      if Hits(fault, disk.calls) {
        disk := Disk(AfterFault(disk.files, call, fault), disk.calls + 1);
        return false;
      }
      disk := Disk(AfterCall(disk.files, call), disk.calls + 1);
      ok := true;
    }

    /** An existing backup has to hold the same bytes. */
    method ImmutableBackup(path: Path, bytes: Bytes, fault: Fault) returns (ok: bool)
      modifies this
      ensures (disk, ok) == Exec(old(disk), BackupCalls(old(disk).files, path, bytes), fault)
    {
      hide DoCall;
      ExecBackup(disk, path, bytes, fault);
      if path in disk.files {
        return disk.files[path] == bytes;
      }
      ok := Do(Create(path), fault);
      if ok {
        ok := Do(Write(path, bytes), fault);
      }
    }

    method Store(temp: Path, path: Path, bytes: Bytes, fault: Fault) returns (ok: bool)
      modifies this
      ensures (disk, ok) == Exec(old(disk), StoreCalls(temp, path, bytes), fault)
    {
      hide DoCall;
      ExecStore(disk, temp, path, bytes, fault);
      ok := Do(Create(temp), fault);
      if ok {
        ok := Do(Write(temp, bytes), fault);
      }
      if ok {
        ok := Do(Rename(temp, path), fault);
      }
      if ok {
        ok := Do(Secure, fault);
      }
    }

    method MigrateSecret(pid: nat, secret: Secret, fault: Fault) returns (ok: bool)
      modifies this
      ensures (disk, ok) == Exec(old(disk), SecretCalls(pid, secret), fault)
    {
      hide DoCall;
      match secret.value
      case None =>
        ExecRefuse(disk, fault);
        ok := false;
      case Some(value) =>
        ok := true;
        if value != [] {
          ok := Store(CredentialTemp(secret.name, pid), Credential(secret.name), value, fault);
        }
    }

    method MigrateSecrets(pid: nat, secrets: seq<Secret>, fault: Fault) returns (ok: bool)
      modifies this
      ensures (disk, ok) == Exec(old(disk), AllSecretCalls(pid, secrets), fault)
    {
      hide Exec, SecretCalls, DoCall;
      ghost var goal := Exec(disk, AllSecretCalls(pid, secrets), fault);
      assert secrets[0..] == secrets;
      for i := 0 to |secrets|
        invariant goal == Exec(disk, AllSecretCalls(pid, secrets[i..]), fault)
      {
        assert secrets[i..][1..] == secrets[i + 1..];
        ExecConcat(disk, SecretCalls(pid, secrets[i]), AllSecretCalls(pid, secrets[i + 1..]), fault);
        ok := MigrateSecret(pid, secrets[i], fault);
        if !ok {
          return;
        }
      }
      ExecNone(disk, fault);
      ok := true;
    }

    method Migrate(pid: nat, original: Bytes, shape: Shape, fault: Fault) returns (ok: bool)
      requires shape.Legacy?
      modifies this
      ensures (disk, ok) == Exec(old(disk), MigrationCalls(old(disk).files, pid, original, shape), fault)
    {
      hide Exec, BackupCalls, SecretCalls, StoreCalls;
      ghost var start, files := disk, disk.files;
      ghost var secretCalls := AllSecretCalls(pid, shape.secrets);
      ghost var atomic := AtomicCalls(pid, shape.migrated);
      ghost var first := if shape.version == 0 then BackupCalls(files, PreV1, original) else [];
      ghost var second := BackupCalls(files, PreV2, original);
      ExecConcat(start, first + second + secretCalls, atomic, fault);
      ExecConcat(start, first + second, secretCalls, fault);
      ExecConcat(start, first, second, fault);
      ExecNone(start, fault);
      ok := true;
      if shape.version == 0 {
        ok := ImmutableBackup(PreV1, original, fault);
        if !ok {
          return;
        }
        BackupExec(start, PreV1, original, fault);
        BackupCallsSame(start.files, disk.files, PreV2, original);
      }
      ok := ImmutableBackup(PreV2, original, fault);
      if !ok {
        return;
      }
      ok := MigrateSecrets(pid, shape.secrets, fault);
      if !ok {
        return;
      }
      ok := Store(ConfigTemp(pid), Config, shape.migrated, fault);
    }

    /** One run of `load_and_migrate` on this directory. */
    method LoadAndMigrateConfig(pid: nat, shapeOf: Bytes -> Shape, fault: Fault) returns (r: Result<Bytes, Error>)
      requires disk.calls == 0
      modifies this
      ensures (disk.files, r) == LoadAndMigrate(old(disk).files, pid, shapeOf, fault)
    {
      hide MigrationCalls, Exec;
      if Config !in disk.files {
        return Err(Missing);
      }
      var original := disk.files[Config];
      var shape := shapeOf(original);
      match shape
      case Unusable => return Err(Invalid);
      case Current => return Ok(original);
      case Legacy(_, _, migrated) =>
        var ok := Migrate(pid, original, shape, fault);
        r := if ok then Ok(migrated) else Err(Failed);
    }

    /** One run of `rollback` on this directory. */
    method RollbackConfig(pid: nat, fault: Fault) returns (r: Result<Path, Error>)
      requires disk.calls == 0
      modifies this
      ensures (disk.files, r) == Rollback(old(disk).files, pid, fault)
    {
      hide Exec, BackupCalls, StoreCalls;
      var source := RollbackSource(disk.files);
      if source !in disk.files {
        return Err(Missing);
      }
      var previous := disk.files[source];
      ghost var start := disk;
      ghost var atomic := AtomicCalls(pid, previous);
      ExecNone(start, fault);
      if Config in disk.files {
        ExecConcat(start, BackupCalls(start.files, PreRollback, start.files[Config]), atomic, fault);
        var saved := ImmutableBackup(PreRollback, disk.files[Config], fault);
        if !saved {
          return Err(Failed);
        }
      } else {
        assert [] + atomic == atomic;
      }
      var ok := Store(ConfigTemp(pid), Config, previous, fault);
      r := if ok then Ok(source) else Err(Failed);
    }
  }

  lemma ExecNone(d: Disk, fault: Fault)
    ensures Exec(d, [], fault) == (d, true)
  {
  }

  lemma ExecRefuse(d: Disk, fault: Fault)
    ensures Exec(d, [Refuse], fault) == (d, false)
  {
  }

  lemma ExecFirst(d: Disk, call: Call, rest: seq<Call>, fault: Fault)
    ensures Exec(d, [call] + rest, fault)
            == var (next, ok) := DoCall(d, call, fault); if ok then Exec(next, rest, fault) else (next, false)
  {
    assert ([call] + rest)[0] == call && ([call] + rest)[1..] == rest;
  }

  lemma ExecBackup(d: Disk, path: Path, bytes: Bytes, fault: Fault)
    ensures Exec(d, BackupCalls(d.files, path, bytes), fault)
            == if path in d.files then (d, d.files[path] == bytes)
               else var (d1, ok1) := DoCall(d, Create(path), fault);
                    if ok1 then DoCall(d1, Write(path, bytes), fault) else (d1, false)
  {
    hide DoCall, Exec;
    ExecNone(d, fault);
    ExecRefuse(d, fault);
    if path !in d.files {
      var d1 := DoCall(d, Create(path), fault).0;
      assert [Create(path), Write(path, bytes)] == [Create(path)] + [Write(path, bytes)];
      assert [Write(path, bytes)] == [Write(path, bytes)] + [];
      ExecFirst(d, Create(path), [Write(path, bytes)], fault);
      ExecFirst(d1, Write(path, bytes), [], fault);
      ExecNone(DoCall(d1, Write(path, bytes), fault).0, fault);
    }
  }

  lemma ExecStore(d: Disk, temp: Path, path: Path, bytes: Bytes, fault: Fault)
    ensures Exec(d, StoreCalls(temp, path, bytes), fault)
            == var (d1, ok1) := DoCall(d, Create(temp), fault);
               if !ok1 then (d1, false) else
               var (d2, ok2) := DoCall(d1, Write(temp, bytes), fault);
               if !ok2 then (d2, false) else
               var (d3, ok3) := DoCall(d2, Rename(temp, path), fault);
               if !ok3 then (d3, false) else DoCall(d3, Secure, fault)
  {
    hide DoCall, Exec;
    var c1, c2, c3 := Create(temp), Write(temp, bytes), Rename(temp, path);
    var d1 := DoCall(d, c1, fault).0;
    var d2 := DoCall(d1, c2, fault).0;
    var d3 := DoCall(d2, c3, fault).0;
    assert [c1, c2, c3, Secure] == [c1] + [c2, c3, Secure] && [c2, c3, Secure] == [c2] + [c3, Secure];
    assert [c3, Secure] == [c3] + [Secure] && [Secure] == [Secure] + [];
    ExecFirst(d, c1, [c2, c3, Secure], fault);
    ExecFirst(d1, c2, [c3, Secure], fault);
    ExecFirst(d2, c3, [Secure], fault);
    ExecFirst(d3, Secure, [], fault);
    ExecNone(DoCall(d3, Secure, fault).0, fault);
  }

  // ---- What each operation leaves -------------------------------------------------------------------------------

  ghost predicate Same(f: Files, g: Files, path: Path) {
    (path in f <==> path in g) && (path in f ==> f[path] == g[path])
  }

  /** Alike apart from temporary files. */
  ghost predicate SameDurable(f: Files, g: Files) {
    forall path :: !IsTemp(path) ==> Same(f, g, path)
  }

  lemma BackupCallsSame(f: Files, g: Files, path: Path, bytes: Bytes)
    requires Same(f, g, path)
    ensures BackupCalls(f, path, bytes) == BackupCalls(g, path, bytes)
  {
  }

  predicate BackupReady(files: Files, path: Path, bytes: Bytes) {
    path in files ==> files[path] == bytes
  }

  lemma BackupExec(d: Disk, path: Path, bytes: Bytes, fault: Fault)
    requires !IsTemp(path)
    ensures var (e, ok) := Exec(d, BackupCalls(d.files, path, bytes), fault);
            && (ok ==> BackupReady(d.files, path, bytes) && e.files == d.files[path := bytes])
            && (fault.NoFault? ==> (ok <==> BackupReady(d.files, path, bytes)))
            && (forall p: Path | p != path :: Same(d.files, e.files, p))
  {
    hide Exec;
    ExecBackup(d, path, bytes, fault);
  }

  lemma StoreExec(d: Disk, temp: Path, path: Path, bytes: Bytes, fault: Fault)
    requires IsTemp(temp) && !IsTemp(path)
    ensures var (e, ok) := Exec(d, StoreCalls(temp, path, bytes), fault);
            && (ok ==> temp !in d.files && e.files == d.files[path := bytes])
            && (fault.NoFault? ==> (ok <==> temp !in d.files))
            && (forall p: Path | p != path && p != temp :: Same(d.files, e.files, p))
            && (Same(d.files, e.files, path) || (path in e.files && e.files[path] == bytes))
  {
    hide Exec;
    ExecStore(d, temp, path, bytes, fault);
  }

  /** Whatever goes wrong while a file is stored, its destination is untouched until the rename; what is left
      of the temporary file is what was written, unless it was cleaned up. */
  lemma StoreFaults(d: Disk, temp: Path, path: Path, bytes: Bytes, fault: Fault)
    requires IsTemp(temp) && !IsTemp(path) && temp !in d.files && !fault.NoFault?
    ensures var (e, ok) := Exec(d, StoreCalls(temp, path, bytes), fault);
            var left, cleaned := if fault.written < |bytes| then bytes[..fault.written] else bytes, fault.Broken? && fault.cleaned;
            && (fault.at == d.calls ==> !ok && e.files == d.files)
            && (fault.at == d.calls + 1 ==> !ok && e.files == if cleaned then d.files else d.files[temp := left])
            && (fault.at == d.calls + 2 ==>
                  !ok && e.files == if cleaned && temp.ConfigTemp? then d.files else d.files[temp := bytes])
            && (fault.at == d.calls + 3 ==> !ok && e.files == d.files[path := bytes])
            && (fault.at < d.calls || fault.at > d.calls + 3 ==> ok && e.files == d.files[path := bytes])
  {
    hide Exec;
    ExecStore(d, temp, path, bytes, fault);
    assert d.files[temp := []][temp := bytes] == d.files[temp := bytes];
    assert d.files[temp := bytes] - {temp} == d.files;
    assert d.files[temp := bytes][path := bytes] - {temp} == d.files[path := bytes];
  }

  /** The credential files after all secrets are stored. */
  function Stored(files: Files, secrets: seq<Secret>): Files
    decreases |secrets|
  {
    if secrets == [] then files else Stored(StoredOne(files, secrets[0]), secrets[1..])
  }

  function StoredOne(files: Files, secret: Secret): Files {
    if secret.value.Some? && secret.value.value != [] then files[Credential(secret.name) := secret.value.value] else files
  }

  predicate SecretReady(files: Files, pid: nat, secret: Secret) {
    secret.value.Some? && (secret.value.value != [] ==> CredentialTemp(secret.name, pid) !in files)
  }

  predicate SecretsReady(files: Files, pid: nat, secrets: seq<Secret>) {
    forall s | s in secrets :: SecretReady(files, pid, s)
  }

  ghost predicate IsSecret(secrets: seq<Secret>, path: Path) {
    exists s | s in secrets :: s.value.Some? && s.value.value != [] && path == Credential(s.name)
  }

  lemma SecretExec(d: Disk, pid: nat, secret: Secret, fault: Fault)
    ensures var (e, ok) := Exec(d, SecretCalls(pid, secret), fault);
            && (ok ==> SecretReady(d.files, pid, secret) && e.files == StoredOne(d.files, secret))
            && (fault.NoFault? ==> (ok <==> SecretReady(d.files, pid, secret)))
            && (forall p: Path | !IsTemp(p) && !IsSecret([secret], p) :: Same(d.files, e.files, p))
  {
    hide Exec;
    match secret.value
    case None => ExecRefuse(d, fault);
    case Some(value) =>
      if value == [] {
        ExecNone(d, fault);
      } else {
        assert secret in [secret];
        StoreExec(d, CredentialTemp(secret.name, pid), Credential(secret.name), value, fault);
      }
  }

  lemma {:induction false} SecretsExec(d: Disk, pid: nat, secrets: seq<Secret>, fault: Fault)
    ensures var (e, ok) := Exec(d, AllSecretCalls(pid, secrets), fault);
            && (ok ==> e.files == Stored(d.files, secrets))
            && (fault.NoFault? ==> (ok <==> SecretsReady(d.files, pid, secrets)))
            && (forall p: Path | !IsTemp(p) && !IsSecret(secrets, p) :: Same(d.files, e.files, p))
    decreases |secrets|
  {
    hide Exec, SecretCalls;
    if secrets == [] {
      ExecNone(d, fault);
    } else {
      var first, rest := secrets[0], secrets[1..];
      var (mid, ok) := Exec(d, SecretCalls(pid, first), fault);
      ExecConcat(d, SecretCalls(pid, first), AllSecretCalls(pid, rest), fault);
      SecretExec(d, pid, first, fault);
      SecretsExec(mid, pid, rest, fault);
      forall p: Path | !IsTemp(p) && !IsSecret(secrets, p)
        ensures !IsSecret([first], p) && !IsSecret(rest, p)
      {
        assert first in secrets;
      }
      if ok {
        assert forall s | s in rest :: SecretReady(mid.files, pid, s) <==> SecretReady(d.files, pid, s);
        assert secrets == [first] + rest;
      } else if fault.NoFault? {
        assert first in secrets;
      }
    }
  }

  lemma {:induction false} StoredSame(f: Files, g: Files, secrets: seq<Secret>, path: Path)
    requires Same(f, g, path) || IsSecret(secrets, path)
    ensures Same(Stored(f, secrets), Stored(g, secrets), path)
    decreases |secrets|
  {
    if secrets != [] {
      assert secrets == [secrets[0]] + secrets[1..];
      StoredSame(StoredOne(f, secrets[0]), StoredOne(g, secrets[0]), secrets[1..], path);
    }
  }

  lemma {:induction false} StoredOthers(files: Files, secrets: seq<Secret>, path: Path)
    requires !path.Credential?
    ensures Same(files, Stored(files, secrets), path)
    decreases |secrets|
  {
    if secrets != [] {
      StoredOthers(StoredOne(files, secrets[0]), secrets[1..], path);
    }
  }

  function WithBackups(files: Files, version: nat, original: Bytes): Files {
    (if version == 0 then files[PreV1 := original] else files)[PreV2 := original]
  }

  predicate BackupsReady(files: Files, version: nat, original: Bytes) {
    (version == 0 ==> BackupReady(files, PreV1, original)) && BackupReady(files, PreV2, original)
  }

  lemma BackupsExec(d: Disk, version: nat, original: Bytes, fault: Fault)
    ensures var (e, ok) := Exec(d, BackupsCalls(d.files, version, original), fault);
            && (ok ==> e.files == WithBackups(d.files, version, original))
            && (fault.NoFault? ==> (ok <==> BackupsReady(d.files, version, original)))
            && (forall p: Path | !p.PreV2? && (version == 0 ==> !p.PreV1?) :: Same(d.files, e.files, p))
  {
    hide Exec, BackupCalls;
    var first := if version == 0 then BackupCalls(d.files, PreV1, original) else [];
    ExecConcat(d, first, BackupCalls(d.files, PreV2, original), fault);
    ExecNone(d, fault);
    if version == 0 {
      BackupExec(d, PreV1, original, fault);
      var mid := Exec(d, first, fault).0;
      BackupCallsSame(d.files, mid.files, PreV2, original);
      BackupExec(mid, PreV2, original, fault);
      var e := Exec(mid, BackupCalls(d.files, PreV2, original), fault).0;
      forall p: Path | !p.PreV2? && !p.PreV1?
        ensures Same(d.files, mid.files, p) && Same(mid.files, e.files, p)
      {
      }
    } else {
      BackupExec(d, PreV2, original, fault);
    }
  }

  /** The files of a completed migration. */
  function Final(files: Files, original: Bytes, shape: Shape): Files
    requires shape.Legacy?
  {
    Stored(WithBackups(files, shape.version, original), shape.secrets)[Config := shape.migrated]
  }

  /** What a run has to find: complete backups or none, no temporary file of its own process, and
      usable secrets. */
  predicate Ready(files: Files, pid: nat, original: Bytes, shape: Shape)
    requires shape.Legacy?
  {
    && BackupsReady(files, shape.version, original)
    && SecretsReady(files, pid, shape.secrets)
    && ConfigTemp(pid) !in files
  }

  /** The files a migration may touch besides the configuration. */
  ghost predicate Touched(shape: Shape, path: Path)
    requires shape.Legacy?
  {
    path.PreV2? || (path.PreV1? && shape.version == 0) || IsSecret(shape.secrets, path)
  }

  lemma {:induction false} StoredTemps(files: Files, secrets: seq<Secret>, pid: nat)
    ensures ConfigTemp(pid) in Stored(files, secrets) <==> ConfigTemp(pid) in files
    decreases |secrets|
  {
    StoredOthers(files, secrets, ConfigTemp(pid));
  }

  lemma MigrationExec(files: Files, pid: nat, shape: Shape, fault: Fault)
    requires shape.Legacy? && Config in files
    ensures var original := files[Config];
            var (e, ok) := Exec(Disk(files, 0), MigrationCalls(files, pid, original, shape), fault);
            && (ok ==> e.files == Final(files, original, shape))
            && (fault.NoFault? ==> (ok <==> Ready(files, pid, original, shape)))
            && (|| SameDurable(e.files, Final(files, original, shape))
                || forall p: Path | !IsTemp(p) && !Touched(shape, p) :: Same(files, e.files, p))
  {
    hide Exec, BackupsCalls, AllSecretCalls, StoreCalls, Stored, SecretsReady, IsSecret, BackupsReady;
    var original := files[Config];
    var d := Disk(files, 0);
    var backups := BackupsCalls(files, shape.version, original);
    var secretCalls := AllSecretCalls(pid, shape.secrets);
    var atomic := AtomicCalls(pid, shape.migrated);
    ExecConcat(d, backups + secretCalls, atomic, fault);
    ExecConcat(d, backups, secretCalls, fault);
    BackupsExec(d, shape.version, original, fault);
    NotSecrets(shape.secrets);
    var (d1, ok1) := Exec(d, backups, fault);
    if ok1 {
      SecretsExec(d1, pid, shape.secrets, fault);
      ReadyTemps(files, d1.files, pid, shape.secrets);
      var (d2, ok2) := Exec(d1, secretCalls, fault);
      if ok2 {
        StoredTemps(d1.files, shape.secrets, pid);
        StoreSettles(d2, pid, shape.migrated, fault, Final(files, original, shape));
      }
    }
  }

  lemma NotSecrets(secrets: seq<Secret>)
    ensures forall p: Path | IsSecret(secrets, p) :: p.Credential?
  {
  }

  lemma ReadyTemps(f: Files, g: Files, pid: nat, secrets: seq<Secret>)
    requires forall p: Path | IsTemp(p) :: Same(f, g, p)
    ensures SecretsReady(f, pid, secrets) <==> SecretsReady(g, pid, secrets)
  {
    forall s | s in secrets
      ensures SecretReady(f, pid, s) <==> SecretReady(g, pid, s)
    {
      assert Same(f, g, CredentialTemp(s.name, pid));
    }
  }

  /** Storing the configuration settles everything or leaves it as it was. */
  lemma StoreSettles(d: Disk, pid: nat, bytes: Bytes, fault: Fault, settled: Files)
    requires settled == d.files[Config := bytes]
    ensures var (e, ok) := Exec(d, AtomicCalls(pid, bytes), fault);
            && (ok ==> e.files == settled)
            && (fault.NoFault? ==> (ok <==> ConfigTemp(pid) !in d.files))
            && (SameDurable(e.files, settled) || SameDurable(e.files, d.files))
            && (forall p: Path | !IsTemp(p) && !p.Config? :: Same(d.files, e.files, p))
  {
    hide Exec, StoreCalls;
    StoreExec(d, ConfigTemp(pid), Config, bytes, fault);
    var e := Exec(d, AtomicCalls(pid, bytes), fault).0;
    forall p: Path | !IsTemp(p) && !p.Config?
      ensures Same(e.files, d.files, p) && Same(e.files, settled, p)
    {
      assert Same(d.files, e.files, p);
    }
  }

  // ---- Crashes and reruns ---------------------------------------------------------------------------------------

  datatype Attempt = Attempt(pid: nat, fault: Fault)

  function AfterAttempts(files: Files, shapeOf: Bytes -> Shape, attempts: seq<Attempt>): Files {
    if attempts == [] then files else
    var n := |attempts| - 1;
    LoadAndMigrate(AfterAttempts(files, shapeOf, attempts[..n]), attempts[n].pid, shapeOf, attempts[n].fault).0
  }

  /** A configuration to migrate, whose migrated form is current. */
  ghost predicate Start(files: Files, shapeOf: Bytes -> Shape) {
    && Config in files && shapeOf(files[Config]).Legacy?
    && shapeOf(shapeOf(files[Config]).migrated).Current?
  }

  /** Either nothing but backups, credentials and temporary files has changed, or all is done. */
  ghost predicate Progress(files: Files, shape: Shape, now: Files)
    requires Config in files && shape.Legacy?
  {
    || SameDurable(now, Final(files, files[Config], shape))
    || forall p: Path | !IsTemp(p) && !Touched(shape, p) :: Same(files, now, p)
  }

  lemma FinalAgrees(f: Files, g: Files, original: Bytes, shape: Shape)
    requires shape.Legacy? && forall p: Path | !IsTemp(p) && !Touched(shape, p) :: Same(f, g, p)
    ensures SameDurable(Final(f, original, shape), Final(g, original, shape))
  {
    hide Stored, IsSecret;
    var bf, bg := WithBackups(f, shape.version, original), WithBackups(g, shape.version, original);
    forall p: Path | !IsTemp(p)
      ensures Same(Final(f, original, shape), Final(g, original, shape), p)
    {
      assert Same(bf, bg, p) || IsSecret(shape.secrets, p);
      StoredSame(bf, bg, shape.secrets, p);
    }
  }

  lemma FinalHolds(files: Files, original: Bytes, shape: Shape)
    requires shape.Legacy?
    ensures var f := Final(files, original, shape);
            && Config in f && f[Config] == shape.migrated && PreV2 in f && f[PreV2] == original
            && (shape.version == 0 ==> PreV1 in f && f[PreV1] == original)
            && Same(files, f, PreRollback) && (shape.version != 0 ==> Same(files, f, PreV1))
  {
    hide Stored;
    var b := WithBackups(files, shape.version, original);
    StoredOthers(b, shape.secrets, PreV1);
    StoredOthers(b, shape.secrets, PreV2);
    StoredOthers(b, shape.secrets, PreRollback);
  }

  lemma AttemptProgresses(files: Files, shapeOf: Bytes -> Shape, now: Files, pid: nat, fault: Fault)
    requires Start(files, shapeOf) && Progress(files, shapeOf(files[Config]), now)
    ensures Progress(files, shapeOf(files[Config]), LoadAndMigrate(now, pid, shapeOf, fault).0)
  {
    hide Exec, MigrationCalls, Final, IsSecret;
    var shape := shapeOf(files[Config]);
    var original := files[Config];
    NotSecrets(shape.secrets);
    FinalHolds(files, original, shape);
    if SameDurable(now, Final(files, original, shape)) {
      assert Same(now, Final(files, original, shape), Config);
    } else {
      assert Same(files, now, Config);
      MigrationExec(now, pid, shape, fault);
      FinalAgrees(now, files, original, shape);
    }
  }

  lemma {:induction false} AttemptsProgress(files: Files, shapeOf: Bytes -> Shape, attempts: seq<Attempt>)
    requires Start(files, shapeOf)
    ensures Progress(files, shapeOf(files[Config]), AfterAttempts(files, shapeOf, attempts))
  {
    hide LoadAndMigrate, Progress, Final;
    if attempts == [] {
      NoProgress(files, shapeOf(files[Config]));
    } else {
      var n := |attempts| - 1;
      AttemptsProgress(files, shapeOf, attempts[..n]);
      AttemptProgresses(files, shapeOf, AfterAttempts(files, shapeOf, attempts[..n]), attempts[n].pid, attempts[n].fault);
    }
  }

  lemma NoProgress(files: Files, shape: Shape)
    requires Config in files && shape.Legacy?
    ensures Progress(files, shape, files)
  {
    hide Final, IsSecret;
  }

  /** After any number of runs, each with a crash or a failed call at any point, the configuration is
      the original or the migrated one, and if it is migrated the backups hold the original. */
  lemma CrashSafe(files: Files, shapeOf: Bytes -> Shape, attempts: seq<Attempt>)
    requires Start(files, shapeOf)
    ensures var original, shape := files[Config], shapeOf(files[Config]);
            var now := AfterAttempts(files, shapeOf, attempts);
            && Config in now && shape.migrated != original
            && (|| now[Config] == original
                || (&& now[Config] == shape.migrated && PreV2 in now && now[PreV2] == original
                    && (shape.version == 0 ==> PreV1 in now && now[PreV1] == original)))
  {
    hide AfterAttempts, Final, IsSecret;
    var original, shape := files[Config], shapeOf(files[Config]);
    var now := AfterAttempts(files, shapeOf, attempts);
    AttemptsProgress(files, shapeOf, attempts);
    FinalHolds(files, original, shape);
    NotSecrets(shape.secrets);
    var f := Final(files, original, shape);
    if SameDurable(now, f) {
      assert Same(now, f, Config) && Same(now, f, PreV2) && Same(now, f, PreV1);
    } else {
      assert Same(files, now, Config);
    }
  }

  /** A rerun without faults succeeds exactly when the work is done already or it finds what it needs;
      then its files are those of an undisturbed migration, apart from leftover temporary files. */
  lemma RerunReachesSameFiles(files: Files, shapeOf: Bytes -> Shape, attempts: seq<Attempt>, pid: nat)
    requires Start(files, shapeOf)
    ensures var original, shape := files[Config], shapeOf(files[Config]);
            var now := AfterAttempts(files, shapeOf, attempts);
            var (after, r) := LoadAndMigrate(now, pid, shapeOf, NoFault);
            && (r.Ok? <==> (Config in now && now[Config] == shape.migrated) || Ready(now, pid, original, shape))
            && (r.Ok? ==> r.value == shape.migrated && SameDurable(after, Final(files, original, shape)))
  {
    hide AfterAttempts, Final, IsSecret, Exec, MigrationCalls, Ready;
    var original, shape := files[Config], shapeOf(files[Config]);
    var now := AfterAttempts(files, shapeOf, attempts);
    AttemptsProgress(files, shapeOf, attempts);
    FinalHolds(files, original, shape);
    NotSecrets(shape.secrets);
    var f := Final(files, original, shape);
    if SameDurable(now, f) {
      assert Same(now, f, Config);
    } else {
      assert Same(files, now, Config);
      MigrationExec(now, pid, shape, NoFault);
      FinalAgrees(now, files, original, shape);
    }
  }

  /** The undisturbed migration those files are compared with. */
  lemma UndisturbedMigration(files: Files, shapeOf: Bytes -> Shape, pid: nat)
    requires Start(files, shapeOf)
    ensures var original, shape := files[Config], shapeOf(files[Config]);
            LoadAndMigrate(files, pid, shapeOf, NoFault).1.Ok? <==> Ready(files, pid, original, shape)
    ensures var original, shape := files[Config], shapeOf(files[Config]);
            Ready(files, pid, original, shape) ==>
              LoadAndMigrate(files, pid, shapeOf, NoFault) == (Final(files, original, shape), Ok(shape.migrated))
  {
    hide Final, Exec, MigrationCalls, Ready;
    MigrationExec(files, pid, shapeOf(files[Config]), NoFault);
  }

  /** A crash between creating the backup and finishing it leaves a backup that every later run
      refuses, whatever its process id. */
  lemma PartialBackupBlocks(files: Files, shapeOf: Bytes -> Shape, pid: nat, written: nat, later: nat)
    requires Start(files, shapeOf) && shapeOf(files[Config]).version != 0 && PreV2 !in files
    requires written < |files[Config]|
    ensures var now := LoadAndMigrate(files, pid, shapeOf, Crash(1, written)).0;
            && now == files[PreV2 := files[Config][..written]]
            && LoadAndMigrate(now, later, shapeOf, NoFault) == (now, Err(Failed))
  {
    hide Exec;
    var original, shape := files[Config], shapeOf(files[Config]);
    var fault := Crash(1, written);
    var second := BackupCalls(files, PreV2, original);
    var rest := AllSecretCalls(pid, shape.secrets) + AtomicCalls(pid, shape.migrated);
    assert MigrationCalls(files, pid, original, shape) == second + rest;
    ExecConcat(Disk(files, 0), second, rest, fault);
    ExecBackup(Disk(files, 0), PreV2, original, fault);
    var now := files[PreV2 := original[..written]];
    assert files[PreV2 := []][PreV2 := original[..written]] == now;
    assert Exec(Disk(files, 0), second, fault) == (Disk(now, 2), false);
    var after := AllSecretCalls(later, shape.secrets) + AtomicCalls(later, shape.migrated);
    assert BackupCalls(now, PreV2, original) == [Refuse];
    assert MigrationCalls(now, later, original, shape) == [Refuse] + after;
    ExecFirst(Disk(now, 0), Refuse, after, NoFault);
  }

  // ---- Rollback -------------------------------------------------------------------------------------------------

  predicate RollbackReady(files: Files, pid: nat) {
    && RollbackSource(files) in files && ConfigTemp(pid) !in files
    && (Config in files ==> BackupReady(files, PreRollback, files[Config]))
  }

  function RolledBack(files: Files): Files
    requires RollbackSource(files) in files
  {
    (if Config in files then files[PreRollback := files[Config]] else files)[Config := files[RollbackSource(files)]]
  }

  /** A rollback restores the backup exactly, and replaces the configuration only after saving it. */
  lemma RollbackExactly(files: Files, pid: nat, fault: Fault)
    ensures var (g, r) := Rollback(files, pid, fault);
            && (r.Ok? ==> r.value == RollbackSource(files) && RollbackSource(files) in files && g == RolledBack(files))
            && RollbackSource(files) == (if PreV2 in files then PreV2 else PreV1)
            && (fault.NoFault? ==> (r.Ok? <==> RollbackReady(files, pid)))
            && (|| Same(files, g, Config)
                || (RollbackSource(files) in files && SameDurable(g, RolledBack(files))))
            && (forall p: Path | !IsTemp(p) && !p.Config? && !p.PreRollback? :: Same(files, g, p))
  {
    hide Exec, BackupCalls, StoreCalls;
    var source := RollbackSource(files);
    if source in files {
      var d := Disk(files, 0);
      var atomic := AtomicCalls(pid, files[source]);
      if Config in files {
        ExecConcat(d, BackupCalls(files, PreRollback, files[Config]), atomic, fault);
        BackupExec(d, PreRollback, files[Config], fault);
        var mid := Exec(d, BackupCalls(files, PreRollback, files[Config]), fault).0;
        StoreSettles(mid, pid, files[source], fault, mid.files[Config := files[source]]);
      } else {
        assert [] + atomic == atomic;
        StoreSettles(d, pid, files[source], fault, d.files[Config := files[source]]);
      }
    }
  }

  /** After any migration attempts, with crashes and failures at any call: a rollback succeeds exactly
      when it finds a backup and nothing in its way, and then restores the original bytes if and only if
      the backup it picks holds them.  Once a migration has gone through, that backup does. */
  lemma RollbackRestores(files: Files, shapeOf: Bytes -> Shape, attempts: seq<Attempt>, pid: nat)
    requires Start(files, shapeOf)
    ensures var now := AfterAttempts(files, shapeOf, attempts);
            var (g, r) := Rollback(now, pid, NoFault);
            var source := RollbackSource(now);
            && (r.Ok? <==> RollbackReady(now, pid))
            && (r.Ok? ==> r.value == source && source in now && Config in g
                          && (g[Config] == files[Config] <==> now[source] == files[Config]))
            && (Config in now && now[Config] != files[Config] ==>
                  && source == PreV2 && source in now && now[source] == files[Config]
                  && (r.Ok? <==> ConfigTemp(pid) !in now && BackupReady(now, PreRollback, shapeOf(files[Config]).migrated)))
  {
    hide AfterAttempts, Exec, RollbackCalls;
    CrashSafe(files, shapeOf, attempts);
    RollbackExactly(AfterAttempts(files, shapeOf, attempts), pid, NoFault);
  }

  /** After a migration that crashed while writing the backup, a rollback succeeds and installs the part
      that was written; the original, still in place until then, survives only in the rollback backup. */
  lemma TruncatedBackupIsInstalled(files: Files, shapeOf: Bytes -> Shape, pid: nat, written: nat, later: nat)
    requires Start(files, shapeOf) && shapeOf(files[Config]).version != 0 && PreV2 !in files
    requires written < |files[Config]| && PreRollback !in files && ConfigTemp(later) !in files
    ensures var now := AfterAttempts(files, shapeOf, [Attempt(pid, Crash(1, written))]);
            var (g, r) := Rollback(now, later, NoFault);
            && Config in now && now[Config] == files[Config]
            && r == Ok(PreV2) && Config in g && g[Config] == files[Config][..written] != files[Config]
            && PreRollback in g && g[PreRollback] == files[Config]
  {
    hide LoadAndMigrate, Rollback;
    var attempts := [Attempt(pid, Crash(1, written))];
    assert attempts[..0] == [] && AfterAttempts(files, shapeOf, []) == files;
    PartialBackupBlocks(files, shapeOf, pid, written, later);
    var now := AfterAttempts(files, shapeOf, attempts);
    assert now == files[PreV2 := files[Config][..written]];
    RollbackExactly(now, later, NoFault);
    assert RollbackReady(now, later);
    assert |files[Config][..written]| == written;
  }
}
