/**
  Ignition's migration of a version-1 configuration to the version-2 schema
  (`TranslateFromV1`).

  The reference definition `Translated` says, section by section, what the
  output is; the methods below build each section the way the Go function
  does, by appending to a list inside a `for` loop, and are proved to produce
  exactly that. The lemmas state what the output promises: lengths and order,
  the synthetic filesystem names and their uniqueness, the flattened file
  list and the references from files to filesystems.

  `escape` stands for the escaping routine of the dataurl library, which
  turns a file's literal contents into the payload of a `data:` URL.
 */
module Translate {
  import opened Wrappers
  import opened Seqs
  import opened Fmt
  import V1 = V1Types
  import opened Types

  const FilesystemNamePrefix: string := "_translate-filesystem-"

  /** The name given to the filesystem at index `i`, `fmt.Sprintf("_translate-filesystem-%d", i)`. */
  function FilesystemName(i: nat): string
  {
    FilesystemNamePrefix + Decimal(i)
  }

  /** Filesystems at different indices get different names. */
  lemma FilesystemNameInjective(i: nat, j: nat)
    ensures FilesystemName(i) == FilesystemName(j) ==> i == j
  {
    assert FilesystemName(i)[|FilesystemNamePrefix|..] == Decimal(i);
    assert FilesystemName(j)[|FilesystemNamePrefix|..] == Decimal(j);
    DecimalInjective(i, j);
  }

  // ---------------------------------------------------------------------
  // Reference definition, element by element and section by section
  // ---------------------------------------------------------------------

  function TranslatePartition(p: V1.Partition): Partition
  {
    Partition(p.partitionLabel, p.number, p.size, p.start, p.typeGuid)
  }

  function TranslateDisk(d: V1.Disk): Disk
  {
    Disk(d.device, d.wipeTable, Map(TranslatePartition, d.partitions))
  }

  function TranslateRaid(a: V1.Raid): Raid
  {
    Raid(a.name, a.level, a.devices, a.spares)
  }

  function TranslateFilesystemCreate(c: V1.FilesystemCreate): FilesystemCreate
  {
    FilesystemCreate(c.force, c.options)
  }

  /** The filesystem at index `i`: named, always mounted, with create options only when given. */
  function TranslateFilesystem(fs: V1.Filesystem, i: nat): Filesystem
  {
    var create := if fs.create.Some? then Some(TranslateFilesystemCreate(fs.create.value)) else None;
    Filesystem(FilesystemName(i), Some(FilesystemMount(fs.device, fs.format, create)))
  }

  /** The `data:` URL holding `contents`: scheme "data", opaque part "," followed by the escaped text. */
  function DataUrl(contents: string, escape: string -> string): Url
  {
    Url("data", "," + escape(contents))
  }

  /** A file placed on the filesystem named `filesystem`. */
  function TranslateFile(f: V1.File, filesystem: string, escape: string -> string): File
  {
    File(filesystem, f.path, FileContents(DataUrl(f.contents, escape)), f.mode, FileUser(f.uid), FileGroup(f.gid))
  }

  function TranslateDropIn(d: V1.SystemdUnitDropIn): SystemdUnitDropIn
  {
    SystemdUnitDropIn(d.name, d.contents)
  }

  function TranslateUnit(u: V1.SystemdUnit): SystemdUnit
  {
    SystemdUnit(u.name, u.enable, u.mask, u.contents, Map(TranslateDropIn, u.dropIns))
  }

  function TranslateNetworkdUnit(u: V1.NetworkdUnit): NetworkdUnit
  {
    NetworkdUnit(u.name, u.contents)
  }

  function TranslateUserCreate(c: V1.UserCreate): UserCreate
  {
    UserCreate(c.uid, c.gecos, c.homedir, c.noCreateHome, c.primaryGroup, c.groups,
               c.noUserGroup, c.system, c.noLogInit, c.shell)
  }

  function TranslateUser(u: V1.User): User
  {
    var create := if u.create.Some? then Some(TranslateUserCreate(u.create.value)) else None;
    User(u.name, u.passwordHash, u.sshAuthorizedKeys, create)
  }

  function TranslateGroup(g: V1.Group): Group
  {
    Group(g.name, g.gid, g.passwordHash, g.system)
  }

  function TranslatedFilesystems(fss: seq<V1.Filesystem>): seq<Filesystem>
  {
    seq(|fss|, i requires 0 <= i < |fss| => TranslateFilesystem(fss[i], i))
  }

  /** The files of one filesystem, each referring to it by `filesystem`. */
  function FilesOf(files: seq<V1.File>, filesystem: string, escape: string -> string): seq<File>
  {
    Map((f: V1.File) => TranslateFile(f, filesystem, escape), files)
  }

  /** The files of all filesystems, one filesystem after another. */
  function TranslatedFiles(fss: seq<V1.Filesystem>, escape: string -> string): seq<File>
    decreases |fss|
  {
    if fss == [] then []
    else
      var last := |fss| - 1;
      TranslatedFiles(fss[..last], escape) + FilesOf(fss[last].files, FilesystemName(last), escape)
  }

  /** The number of files over all filesystems. */
  function TotalFiles(fss: seq<V1.Filesystem>): nat
    decreases |fss|
  {
    if fss == [] then 0 else TotalFiles(fss[..|fss| - 1]) + |fss[|fss| - 1].files|
  }

  /** The whole version-2 configuration the migration produces. */
  function Translated(oldConfig: V1.Config, escape: string -> string): Config
  {
    var fss := oldConfig.storage.filesystems;
    Config(
      Ignition(IgnitionVersion(2, 0, 0)),
      Storage(
        Map(TranslateDisk, oldConfig.storage.disks),
        Map(TranslateRaid, oldConfig.storage.arrays),
        TranslatedFilesystems(fss),
        TranslatedFiles(fss, escape)),
      Systemd(Map(TranslateUnit, oldConfig.systemd.units)),
      Networkd(Map(TranslateNetworkdUnit, oldConfig.networkd.units)),
      Passwd(
        Map(TranslateUser, oldConfig.passwd.users),
        Map(TranslateGroup, oldConfig.passwd.groups)))
  }

  // ---------------------------------------------------------------------
  // The migration, one loop per section
  // ---------------------------------------------------------------------

  /**
    Migrates a version-1 configuration. The output carries schema version
    2.0.0 (only the major number is set; minor and patch keep Go's zero
    value). The Go function also returns an error, which is nil on every
    path; here it is `err`, always `None`.
   */
  method TranslateFromV1(oldConfig: V1.Config, escape: string -> string) returns (config: Config, err: Option<string>)
    ensures err == None
    ensures config == Translated(oldConfig, escape)
    ensures config.ignition.version == IgnitionVersion(2, 0, 0)
  {
    var disks := TranslateDisks(oldConfig.storage.disks);
    var arrays := TranslateArrays(oldConfig.storage.arrays);
    var filesystems, files := TranslateFilesystems(oldConfig.storage.filesystems, escape);
    var units := TranslateSystemdUnits(oldConfig.systemd.units);
    var networkdUnits := TranslateNetworkdUnits(oldConfig.networkd.units);
    var users := TranslateUsers(oldConfig.passwd.users);
    var groups := TranslateGroups(oldConfig.passwd.groups);
    config := Config(
      Ignition(IgnitionVersion(2, 0, 0)),
      Storage(disks, arrays, filesystems, files),
      Systemd(units),
      Networkd(networkdUnits),
      Passwd(users, groups));
    err := None;
  }

  method TranslateDisks(oldDisks: seq<V1.Disk>) returns (disks: seq<Disk>)
    ensures disks == Map(TranslateDisk, oldDisks)
  {
    disks := [];
    for i := 0 to |oldDisks|
      invariant |disks| == i
      invariant forall k :: 0 <= k < i ==> disks[k] == TranslateDisk(oldDisks[k])
    {
      var oldDisk := oldDisks[i];
      var disk := Disk(oldDisk.device, oldDisk.wipeTable, []);
      for j := 0 to |oldDisk.partitions|
        invariant disk.device == oldDisk.device && disk.wipeTable == oldDisk.wipeTable
        invariant |disk.partitions| == j
        invariant forall k :: 0 <= k < j ==> disk.partitions[k] == TranslatePartition(oldDisk.partitions[k])
      {
        var oldPartition := oldDisk.partitions[j];
        var partition := Partition(oldPartition.partitionLabel, oldPartition.number,
                                   oldPartition.size, oldPartition.start, oldPartition.typeGuid);
        disk := disk.(partitions := disk.partitions + [partition]);
      }
      disks := disks + [disk];
    }
  }

  method TranslateArrays(oldArrays: seq<V1.Raid>) returns (arrays: seq<Raid>)
    ensures arrays == Map(TranslateRaid, oldArrays)
  {
    arrays := [];
    for i := 0 to |oldArrays|
      invariant |arrays| == i
      invariant forall k :: 0 <= k < i ==> arrays[k] == TranslateRaid(oldArrays[k])
    {
      var oldArray := oldArrays[i];
      var raid := Raid(oldArray.name, oldArray.level, [], oldArray.spares);
      for j := 0 to |oldArray.devices|
        invariant raid.name == oldArray.name && raid.level == oldArray.level && raid.spares == oldArray.spares
        invariant raid.devices == oldArray.devices[..j]
      {
        raid := raid.(devices := raid.devices + [oldArray.devices[j]]);
      }
      arrays := arrays + [raid];
    }
  }

  /**
    Names each filesystem after its index and moves its files into one list,
    in filesystem order and then file order.
   */
  method TranslateFilesystems(oldFilesystems: seq<V1.Filesystem>, escape: string -> string)
    returns (filesystems: seq<Filesystem>, files: seq<File>)
    ensures filesystems == TranslatedFilesystems(oldFilesystems)
    ensures files == TranslatedFiles(oldFilesystems, escape)
  {
    filesystems, files := [], [];
    for i := 0 to |oldFilesystems|
      invariant |filesystems| == i
      invariant forall k :: 0 <= k < i ==> filesystems[k] == TranslateFilesystem(oldFilesystems[k], k)
      invariant files == TranslatedFiles(oldFilesystems[..i], escape)
    {
      var oldFilesystem := oldFilesystems[i];
      var mount := FilesystemMount(oldFilesystem.device, oldFilesystem.format, None);
      if oldFilesystem.create.Some? {
        var oldCreate := oldFilesystem.create.value;
        mount := mount.(create := Some(FilesystemCreate(oldCreate.force, oldCreate.options)));
      }
      var filesystem := Filesystem(FilesystemName(i), Some(mount));
      filesystems := filesystems + [filesystem];

      ghost var before := files;
      for j := 0 to |oldFilesystem.files|
        invariant |files| == |before| + j
        invariant files[..|before|] == before
        invariant forall k :: 0 <= k < j ==>
          files[|before| + k] == TranslateFile(oldFilesystem.files[k], filesystem.name, escape)
      {
        var oldFile := oldFilesystem.files[j];
        var file := File(
          filesystem.name,
          oldFile.path,
          FileContents(Url("data", "," + escape(oldFile.contents))),
          oldFile.mode,
          FileUser(oldFile.uid),
          FileGroup(oldFile.gid));
        files := files + [file];
      }
      assert oldFilesystems[..i + 1][..i] == oldFilesystems[..i];
      assert files == before + FilesOf(oldFilesystem.files, FilesystemName(i), escape);
    }
    assert oldFilesystems[..|oldFilesystems|] == oldFilesystems;
  }

  method TranslateSystemdUnits(oldUnits: seq<V1.SystemdUnit>) returns (units: seq<SystemdUnit>)
    ensures units == Map(TranslateUnit, oldUnits)
  {
    units := [];
    for i := 0 to |oldUnits|
      invariant |units| == i
      invariant forall k :: 0 <= k < i ==> units[k] == TranslateUnit(oldUnits[k])
    {
      var oldUnit := oldUnits[i];
      var unit := SystemdUnit(oldUnit.name, oldUnit.enable, oldUnit.mask, oldUnit.contents, []);
      for j := 0 to |oldUnit.dropIns|
        invariant unit.name == oldUnit.name && unit.enable == oldUnit.enable
        invariant unit.mask == oldUnit.mask && unit.contents == oldUnit.contents
        invariant |unit.dropIns| == j
        invariant forall k :: 0 <= k < j ==> unit.dropIns[k] == TranslateDropIn(oldUnit.dropIns[k])
      {
        var oldDropIn := oldUnit.dropIns[j];
        unit := unit.(dropIns := unit.dropIns + [SystemdUnitDropIn(oldDropIn.name, oldDropIn.contents)]);
      }
      units := units + [unit];
    }
  }

  method TranslateNetworkdUnits(oldUnits: seq<V1.NetworkdUnit>) returns (units: seq<NetworkdUnit>)
    ensures units == Map(TranslateNetworkdUnit, oldUnits)
  {
    units := [];
    for i := 0 to |oldUnits|
      invariant |units| == i
      invariant forall k :: 0 <= k < i ==> units[k] == TranslateNetworkdUnit(oldUnits[k])
    {
      var oldUnit := oldUnits[i];
      units := units + [NetworkdUnit(oldUnit.name, oldUnit.contents)];
    }
  }

  method TranslateUsers(oldUsers: seq<V1.User>) returns (users: seq<User>)
    ensures users == Map(TranslateUser, oldUsers)
  {
    users := [];
    for i := 0 to |oldUsers|
      invariant |users| == i
      invariant forall k :: 0 <= k < i ==> users[k] == TranslateUser(oldUsers[k])
    {
      var oldUser := oldUsers[i];
      var user := User(oldUser.name, oldUser.passwordHash, oldUser.sshAuthorizedKeys, None);
      if oldUser.create.Some? {
        var c := oldUser.create.value;
        user := user.(create := Some(UserCreate(
          c.uid, c.gecos, c.homedir, c.noCreateHome, c.primaryGroup,
          c.groups, c.noUserGroup, c.system, c.noLogInit, c.shell)));
      }
      users := users + [user];
    }
  }

  method TranslateGroups(oldGroups: seq<V1.Group>) returns (groups: seq<Group>)
    ensures groups == Map(TranslateGroup, oldGroups)
  {
    groups := [];
    for i := 0 to |oldGroups|
      invariant |groups| == i
      invariant forall k :: 0 <= k < i ==> groups[k] == TranslateGroup(oldGroups[k])
    {
      var oldGroup := oldGroups[i];
      groups := groups + [Group(oldGroup.name, oldGroup.gid, oldGroup.passwordHash, oldGroup.system)];
    }
  }
}
