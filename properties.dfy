/**
  What the migration promises about its output, stated over the reference
  definition `Translated` (which `TranslateFromV1` is proved to compute).
 */
module Properties {
  import opened Wrappers
  import opened Seqs
  import opened Fmt
  import V1 = V1Types
  import opened Types
  import opened Translate

  /**
    Disks, their partitions and RAID arrays keep the input's length and
    order, and each element has the fields of the element it came from.
   */
  lemma StorageCopiesPreserved(oldConfig: V1.Config, escape: string -> string)
    ensures var disks, oldDisks := Translated(oldConfig, escape).storage.disks, oldConfig.storage.disks;
      |disks| == |oldDisks| &&
      forall i :: 0 <= i < |disks| ==>
        disks[i].device == oldDisks[i].device &&
        disks[i].wipeTable == oldDisks[i].wipeTable &&
        |disks[i].partitions| == |oldDisks[i].partitions| &&
        forall j :: 0 <= j < |disks[i].partitions| ==>
          var p, q := disks[i].partitions[j], oldDisks[i].partitions[j];
          p.partitionLabel == q.partitionLabel && p.number == q.number &&
          p.size == q.size && p.start == q.start && p.typeGuid == q.typeGuid
    ensures var arrays, oldArrays := Translated(oldConfig, escape).storage.arrays, oldConfig.storage.arrays;
      |arrays| == |oldArrays| &&
      forall i :: 0 <= i < |arrays| ==>
        arrays[i].name == oldArrays[i].name && arrays[i].level == oldArrays[i].level &&
        arrays[i].devices == oldArrays[i].devices && arrays[i].spares == oldArrays[i].spares
  {
  }

  /**
    Systemd units with their drop-ins, and networkd units, keep the input's
    length and order, and each element has the fields of the element it
    came from.
   */
  lemma UnitsPreserved(oldConfig: V1.Config, escape: string -> string)
    ensures var units, oldUnits := Translated(oldConfig, escape).systemd.units, oldConfig.systemd.units;
      |units| == |oldUnits| &&
      forall i :: 0 <= i < |units| ==>
        units[i].name == oldUnits[i].name && units[i].enable == oldUnits[i].enable &&
        units[i].mask == oldUnits[i].mask && units[i].contents == oldUnits[i].contents &&
        |units[i].dropIns| == |oldUnits[i].dropIns| &&
        forall j :: 0 <= j < |units[i].dropIns| ==>
          units[i].dropIns[j].name == oldUnits[i].dropIns[j].name &&
          units[i].dropIns[j].contents == oldUnits[i].dropIns[j].contents
    ensures var units, oldUnits := Translated(oldConfig, escape).networkd.units, oldConfig.networkd.units;
      |units| == |oldUnits| &&
      forall i :: 0 <= i < |units| ==>
        units[i].name == oldUnits[i].name && units[i].contents == oldUnits[i].contents
  {
  }

  /** Groups keep the input's length and order and all their fields. */
  lemma GroupsPreserved(oldConfig: V1.Config, escape: string -> string)
    ensures var groups, oldGroups := Translated(oldConfig, escape).passwd.groups, oldConfig.passwd.groups;
      |groups| == |oldGroups| &&
      forall i :: 0 <= i < |groups| ==>
        groups[i].name == oldGroups[i].name && groups[i].gid == oldGroups[i].gid &&
        groups[i].passwordHash == oldGroups[i].passwordHash && groups[i].system == oldGroups[i].system
  {
  }

  /**
    Users keep length and order and their name, password hash and keys; a
    user has a create directive exactly when its input did, with every field
    copied.
   */
  lemma UsersPreserved(oldConfig: V1.Config, escape: string -> string)
    ensures var users, oldUsers := Translated(oldConfig, escape).passwd.users, oldConfig.passwd.users;
      |users| == |oldUsers| &&
      forall i :: 0 <= i < |users| ==>
        users[i].name == oldUsers[i].name &&
        users[i].passwordHash == oldUsers[i].passwordHash &&
        users[i].sshAuthorizedKeys == oldUsers[i].sshAuthorizedKeys &&
        (users[i].create.Some? <==> oldUsers[i].create.Some?) &&
        (users[i].create.Some? ==>
          var c, d := users[i].create.value, oldUsers[i].create.value;
          c.uid == d.uid && c.gecos == d.gecos && c.homedir == d.homedir &&
          c.noCreateHome == d.noCreateHome && c.primaryGroup == d.primaryGroup &&
          c.groups == d.groups && c.noUserGroup == d.noUserGroup && c.system == d.system &&
          c.noLogInit == d.noLogInit && c.shell == d.shell)
  {
  }

  /**
    One output filesystem per input filesystem, in order: the i-th is named
    after i, so no two share a name; it is always mounted, on the input's
    device with the input's format, and has create options exactly when the
    input did, with force and options copied.
   */
  lemma FilesystemsTranslated(oldConfig: V1.Config, escape: string -> string)
    ensures var out, fss := Translated(oldConfig, escape).storage.filesystems, oldConfig.storage.filesystems;
      |out| == |fss| &&
      (forall i :: 0 <= i < |out| ==>
        out[i].name == FilesystemName(i) &&
        out[i].mount.Some? &&
        out[i].mount.value.device == fss[i].device &&
        out[i].mount.value.format == fss[i].format &&
        (out[i].mount.value.create.Some? <==> fss[i].create.Some?) &&
        (out[i].mount.value.create.Some? ==>
          out[i].mount.value.create.value.force == fss[i].create.value.force &&
          out[i].mount.value.create.value.options == fss[i].create.value.options)) &&
      (forall i, j :: 0 <= i < |out| && 0 <= j < |out| && i != j ==> out[i].name != out[j].name)
  {
    forall i: nat, j: nat | i != j ensures FilesystemName(i) != FilesystemName(j) {
      FilesystemNameInjective(i, j);
    }
  }

  /** Where the j-th file of the k-th filesystem lands: after the files of filesystems 0..k-1. */
  function FilePosition(fss: seq<V1.Filesystem>, k: nat, j: nat): nat
    requires k <= |fss|
  {
    TotalFiles(fss[..k]) + j
  }

  /** The flattened file list holds as many files as all filesystems together. */
  lemma {:induction false} TranslatedFilesCount(fss: seq<V1.Filesystem>, escape: string -> string)
    ensures |TranslatedFiles(fss, escape)| == TotalFiles(fss)
    decreases |fss|
  {
    if fss != [] {
      TranslatedFilesCount(fss[..|fss| - 1], escape);
    }
  }

  /**
    The j-th file of the k-th filesystem sits at position (files of
    filesystems 0..k-1) + j of the flattened list, placed on the k-th
    filesystem.
   */
  lemma {:induction false} TranslatedFileAt(fss: seq<V1.Filesystem>, escape: string -> string, k: nat, j: nat)
    requires k < |fss| && j < |fss[k].files|
    ensures FilePosition(fss, k, j) < |TranslatedFiles(fss, escape)|
    ensures TranslatedFiles(fss, escape)[FilePosition(fss, k, j)] == TranslateFile(fss[k].files[j], FilesystemName(k), escape)
    decreases |fss|
  {
    var last := |fss| - 1;
    var init := fss[..last];
    TranslatedFilesCount(init, escape);
    if k < last {
      TranslatedFileAt(init, escape, k, j);
      assert fss[..k] == init[..k];
      assert init[k] == fss[k];
      assert FilePosition(fss, k, j) == FilePosition(init, k, j);
    } else {
      assert fss[..k] == init;
    }
  }

  /**
    The flattened file list: files come grouped by filesystem, in filesystem
    order and then file order, and there are no others.
   */
  lemma {:induction false} TranslatedFilesLayout(fss: seq<V1.Filesystem>, escape: string -> string)
    ensures |TranslatedFiles(fss, escape)| == TotalFiles(fss)
    ensures forall k: nat, j: nat :: k < |fss| && j < |fss[k].files| ==>
      FilePosition(fss, k, j) < TotalFiles(fss) &&
      TranslatedFiles(fss, escape)[FilePosition(fss, k, j)] == TranslateFile(fss[k].files[j], FilesystemName(k), escape)
  {
    TranslatedFilesCount(fss, escape);
    forall k: nat, j: nat | k < |fss| && j < |fss[k].files|
      ensures FilePosition(fss, k, j) < TotalFiles(fss) &&
        TranslatedFiles(fss, escape)[FilePosition(fss, k, j)] == TranslateFile(fss[k].files[j], FilesystemName(k), escape)
    {
      TranslatedFileAt(fss, escape, k, j);
    }
  }

  /** Every position of the flattened list holds some file of some filesystem, placed on that filesystem. */
  lemma {:induction false} TranslatedFileOrigin(fss: seq<V1.Filesystem>, escape: string -> string, p: nat)
    requires p < |TranslatedFiles(fss, escape)|
    ensures exists k, j ::
      0 <= k < |fss| && 0 <= j < |fss[k].files| &&
      TranslatedFiles(fss, escape)[p] == TranslateFile(fss[k].files[j], FilesystemName(k), escape)
    decreases |fss|
  {
    var last := |fss| - 1;
    var init := fss[..last];
    var front := TranslatedFiles(init, escape);
    if p < |front| {
      TranslatedFileOrigin(init, escape, p);
      var k, j :| 0 <= k < |init| && 0 <= j < |init[k].files| &&
        front[p] == TranslateFile(init[k].files[j], FilesystemName(k), escape);
      assert init[k] == fss[k];
    } else {
      var j := p - |front|;
      assert TranslatedFiles(fss, escape)[p] == TranslateFile(fss[last].files[j], FilesystemName(last), escape);
    }
  }

  /**
    Every output file refers to its filesystem by the generated name, has its
    contents as a `data:` URL whose opaque part is "," and the escaped
    literal, and keeps path, mode and owner ids; there are as many output
    files as input files over all filesystems.
   */
  lemma FilesTranslated(oldConfig: V1.Config, escape: string -> string)
    ensures var files, fss := Translated(oldConfig, escape).storage.files, oldConfig.storage.filesystems;
      |files| == TotalFiles(fss) &&
      forall k: nat, j: nat :: k < |fss| && j < |fss[k].files| ==>
        FilePosition(fss, k, j) < |files| &&
        var f, g := fss[k].files[j], files[FilePosition(fss, k, j)];
        g.filesystem == FilesystemName(k) &&
        g.contents.source.scheme == "data" &&
        g.contents.source.opaquePart == "," + escape(f.contents) &&
        g.path == f.path && g.mode == f.mode &&
        g.user.id == f.uid && g.group.id == f.gid
  {
    TranslatedFilesLayout(oldConfig.storage.filesystems, escape);
  }

  /**
    Referential integrity: every output file names exactly one of the output
    filesystems.
   */
  lemma FileReferencesResolve(oldConfig: V1.Config, escape: string -> string)
    ensures var s := Translated(oldConfig, escape).storage;
      forall p :: 0 <= p < |s.files| ==>
        exists k :: 0 <= k < |s.filesystems| && s.filesystems[k].name == s.files[p].filesystem &&
          forall k' :: 0 <= k' < |s.filesystems| && s.filesystems[k'].name == s.files[p].filesystem ==> k' == k
  {
    var s := Translated(oldConfig, escape).storage;
    var fss := oldConfig.storage.filesystems;
    FilesystemsTranslated(oldConfig, escape);
    forall p | 0 <= p < |s.files|
      ensures exists k ::
        0 <= k < |s.filesystems| && s.filesystems[k].name == s.files[p].filesystem &&
        forall k' :: 0 <= k' < |s.filesystems| && s.filesystems[k'].name == s.files[p].filesystem ==> k' == k
    {
      TranslatedFileOrigin(fss, escape, p);
      var k, j :| 0 <= k < |fss| && 0 <= j < |fss[k].files| &&
        s.files[p] == TranslateFile(fss[k].files[j], FilesystemName(k), escape);
      assert s.filesystems[k].name == s.files[p].filesystem;
    }
  }
}
