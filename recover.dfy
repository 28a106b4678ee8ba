/**
  The migration loses nothing: a version-1 configuration can be rebuilt from
  its version-2 translation. Each filesystem gets back, in order, the files
  that refer to its name, and each file's literal contents are read back
  from its `data:` URL with `unescape`. The rebuild is exact whenever
  `unescape` undoes the escaping routine; that the dataurl library's escaping
  has such an inverse is assumed of it here, not proved.
 */
module Recover {
  import opened Wrappers
  import opened Seqs
  import V1 = V1Types
  import opened Types
  import opened Translate
  import opened Properties

  function RecoverPartition(p: Partition): V1.Partition
  {
    V1.Partition(p.partitionLabel, p.number, p.size, p.start, p.typeGuid)
  }

  function RecoverDisk(d: Disk): V1.Disk
  {
    V1.Disk(d.device, d.wipeTable, Map(RecoverPartition, d.partitions))
  }

  function RecoverRaid(a: Raid): V1.Raid
  {
    V1.Raid(a.name, a.level, a.devices, a.spares)
  }

  /** The literal contents behind a `data:` URL: its opaque part after the leading ",", unescaped. */
  function RecoverContents(url: Url, unescape: string -> string): string
  {
    if |url.opaquePart| > 0 then unescape(url.opaquePart[1..]) else ""
  }

  function RecoverFile(f: File, unescape: string -> string): V1.File
  {
    V1.File(f.path, RecoverContents(f.contents.source, unescape), f.mode, f.user.id, f.group.id)
  }

  /** The files placed on the filesystem named `name`, in list order. */
  function FilesOn(files: seq<File>, name: string): (r: seq<File>)
    ensures forall i :: 0 <= i < |r| ==> r[i].filesystem == name
    ensures |r| <= |files|
  {
    if files == [] then []
    else if files[0].filesystem == name then [files[0]] + FilesOn(files[1..], name)
    else FilesOn(files[1..], name)
  }

  function RecoverFilesystem(fs: Filesystem, files: seq<File>, unescape: string -> string): V1.Filesystem
  {
    var mount := if fs.mount.Some? then fs.mount.value else FilesystemMount("", "", None);
    var create := if mount.create.Some? then Some(V1.FilesystemCreate(mount.create.value.force, mount.create.value.options)) else None;
    V1.Filesystem(mount.device, mount.format, create, Map((f: File) => RecoverFile(f, unescape), FilesOn(files, fs.name)))
  }

  function RecoverDropIn(d: SystemdUnitDropIn): V1.SystemdUnitDropIn
  {
    V1.SystemdUnitDropIn(d.name, d.contents)
  }

  function RecoverUnit(u: SystemdUnit): V1.SystemdUnit
  {
    V1.SystemdUnit(u.name, u.enable, u.mask, u.contents, Map(RecoverDropIn, u.dropIns))
  }

  function RecoverNetworkdUnit(u: NetworkdUnit): V1.NetworkdUnit
  {
    V1.NetworkdUnit(u.name, u.contents)
  }

  function RecoverUser(u: User): V1.User
  {
    var create := if u.create.Some? then
        var c := u.create.value;
        Some(V1.UserCreate(c.uid, c.gecos, c.homedir, c.noCreateHome, c.primaryGroup, c.groups,
                           c.noUserGroup, c.system, c.noLogInit, c.shell))
      else None;
    V1.User(u.name, u.passwordHash, u.sshAuthorizedKeys, create)
  }

  function RecoverGroup(g: Group): V1.Group
  {
    V1.Group(g.name, g.gid, g.passwordHash, g.system)
  }

  /** The version-1 configuration a version-2 one was translated from. */
  function Recovered(c: Config, unescape: string -> string): V1.Config
  {
    V1.Config(
      V1.Storage(
        Map(RecoverDisk, c.storage.disks),
        Map(RecoverRaid, c.storage.arrays),
        Map((fs: Filesystem) => RecoverFilesystem(fs, c.storage.files, unescape), c.storage.filesystems)),
      V1.Systemd(Map(RecoverUnit, c.systemd.units)),
      V1.Networkd(Map(RecoverNetworkdUnit, c.networkd.units)),
      V1.Passwd(Map(RecoverUser, c.passwd.users), Map(RecoverGroup, c.passwd.groups)))
  }

  // ---------------------------------------------------------------------
  // Regrouping the flattened file list
  // ---------------------------------------------------------------------

  lemma {:induction false} FilesOnConcat(a: seq<File>, b: seq<File>, name: string)
    ensures FilesOn(a + b, name) == FilesOn(a, name) + FilesOn(b, name)
    decreases |a|
  {
    if a == [] {
      assert a + b == b;
    } else {
      assert (a + b)[0] == a[0];
      assert (a + b)[1..] == a[1..] + b;
      FilesOnConcat(a[1..], b, name);
    }
  }

  lemma {:induction false} FilesOnAll(files: seq<File>, name: string)
    requires forall i :: 0 <= i < |files| ==> files[i].filesystem == name
    ensures FilesOn(files, name) == files
    decreases |files|
  {
    if files != [] {
      FilesOnAll(files[1..], name);
    }
  }

  lemma {:induction false} FilesOnNone(files: seq<File>, name: string)
    requires forall i :: 0 <= i < |files| ==> files[i].filesystem != name
    ensures FilesOn(files, name) == []
    decreases |files|
  {
    if files != [] {
      FilesOnNone(files[1..], name);
    }
  }

  /** The files of filesystems 0..n-1 refer to none of the names of filesystems n and later. */
  lemma FilesAvoidLaterNames(fss: seq<V1.Filesystem>, escape: string -> string, m: nat)
    requires m >= |fss|
    ensures forall p :: 0 <= p < |TranslatedFiles(fss, escape)| ==>
      TranslatedFiles(fss, escape)[p].filesystem != FilesystemName(m)
  {
    forall p | 0 <= p < |TranslatedFiles(fss, escape)|
      ensures TranslatedFiles(fss, escape)[p].filesystem != FilesystemName(m)
    {
      TranslatedFileOrigin(fss, escape, p);
      var k, j :| 0 <= k < |fss| && 0 <= j < |fss[k].files| &&
        TranslatedFiles(fss, escape)[p] == TranslateFile(fss[k].files[j], FilesystemName(k), escape);
      FilesystemNameInjective(k, m);
    }
  }

  /** Selecting the files named after filesystem k gives back exactly its files, in order. */
  lemma {:induction false} FilesOnTranslated(fss: seq<V1.Filesystem>, escape: string -> string, k: nat)
    requires k < |fss|
    ensures FilesOn(TranslatedFiles(fss, escape), FilesystemName(k)) == FilesOf(fss[k].files, FilesystemName(k), escape)
    decreases |fss|
  {
    var last := |fss| - 1;
    var init := fss[..last];
    var front := TranslatedFiles(init, escape);
    var back := FilesOf(fss[last].files, FilesystemName(last), escape);
    FilesOnConcat(front, back, FilesystemName(k));
    if k == last {
      FilesAvoidLaterNames(init, escape, k);
      FilesOnNone(front, FilesystemName(k));
      FilesOnAll(back, FilesystemName(k));
    } else {
      FilesOnTranslated(init, escape, k);
      assert init[k] == fss[k];
      FilesystemNameInjective(k, last);
      FilesOnNone(back, FilesystemName(k));
    }
  }

  // ---------------------------------------------------------------------
  // Element-wise inverses
  // ---------------------------------------------------------------------

  lemma RecoverDiskInverse(d: V1.Disk)
    ensures RecoverDisk(TranslateDisk(d)) == d
  {
  }

  lemma RecoverUnitInverse(u: V1.SystemdUnit)
    ensures RecoverUnit(TranslateUnit(u)) == u
  {
  }

  lemma RecoverFileInverse(f: V1.File, filesystem: string, escape: string -> string, unescape: string -> string)
    requires forall s :: unescape(escape(s)) == s
    ensures RecoverFile(TranslateFile(f, filesystem, escape), unescape) == f
  {
  }

  lemma RecoverFilesystemInverse(fss: seq<V1.Filesystem>, escape: string -> string, unescape: string -> string, k: nat)
    requires forall s :: unescape(escape(s)) == s
    requires k < |fss|
    ensures RecoverFilesystem(TranslateFilesystem(fss[k], k), TranslatedFiles(fss, escape), unescape) == fss[k]
  {
    FilesOnTranslated(fss, escape, k);
    var name := FilesystemName(k);
    var translate := (f: V1.File) => TranslateFile(f, name, escape);
    var recover := (f: File) => RecoverFile(f, unescape);
    forall f: V1.File ensures recover(translate(f)) == f {
      RecoverFileInverse(f, name, escape, unescape);
    }
    MapLeftInverse(translate, recover, fss[k].files);
  }

  /**
    If `unescape` undoes `escape`, rebuilding the version-1 configuration from
    the translation gives back the input exactly: the disks, arrays, units,
    users and groups, and every filesystem with its own files in their order.
   */
  lemma TranslationIsLossless(oldConfig: V1.Config, escape: string -> string, unescape: string -> string)
    requires forall s :: unescape(escape(s)) == s
    ensures Recovered(Translated(oldConfig, escape), unescape) == oldConfig
  {
    var c := Translated(oldConfig, escape);
    var r := Recovered(c, unescape);
    forall d: V1.Disk ensures RecoverDisk(TranslateDisk(d)) == d {
      RecoverDiskInverse(d);
    }
    MapLeftInverse(TranslateDisk, RecoverDisk, oldConfig.storage.disks);
    MapLeftInverse(TranslateRaid, RecoverRaid, oldConfig.storage.arrays);
    forall u: V1.SystemdUnit ensures RecoverUnit(TranslateUnit(u)) == u {
      RecoverUnitInverse(u);
    }
    MapLeftInverse(TranslateUnit, RecoverUnit, oldConfig.systemd.units);
    MapLeftInverse(TranslateNetworkdUnit, RecoverNetworkdUnit, oldConfig.networkd.units);
    MapLeftInverse(TranslateUser, RecoverUser, oldConfig.passwd.users);
    MapLeftInverse(TranslateGroup, RecoverGroup, oldConfig.passwd.groups);

    var fss := oldConfig.storage.filesystems;
    var recovered := r.storage.filesystems;
    assert |recovered| == |fss|;
    forall k | 0 <= k < |fss| ensures recovered[k] == fss[k] {
      RecoverFilesystemInverse(fss, escape, unescape, k);
    }
    assert recovered == fss;
  }
}
