/**
  The version-2 Ignition configuration, restricted to the fields the
  translation writes. Filesystems are named, and files live in one top-level
  list that refers to its filesystem by name; file contents are a URL.
 */
module Types {
  import opened Wrappers

  datatype Config = Config(
    ignition: Ignition,
    storage: Storage,
    systemd: Systemd,
    networkd: Networkd,
    passwd: Passwd)

  datatype Ignition = Ignition(version: IgnitionVersion)

  datatype IgnitionVersion = IgnitionVersion(major: nat, minor: nat, patch: nat)

  datatype Storage = Storage(
    disks: seq<Disk>,
    arrays: seq<Raid>,
    filesystems: seq<Filesystem>,
    files: seq<File>)

  datatype Disk = Disk(device: string, wipeTable: bool, partitions: seq<Partition>)

  datatype Partition = Partition(partitionLabel: string, number: int, size: nat, start: nat, typeGuid: string)

  datatype Raid = Raid(name: string, level: string, devices: seq<string>, spares: int)

  datatype Filesystem = Filesystem(name: string, mount: Option<FilesystemMount>)

  datatype FilesystemMount = FilesystemMount(device: string, format: string, create: Option<FilesystemCreate>)

  datatype FilesystemCreate = FilesystemCreate(force: bool, options: seq<string>)

  /** A file names the filesystem it is written onto. */
  datatype File = File(
    filesystem: string,
    path: string,
    contents: FileContents,
    mode: nat,
    user: FileUser,
    group: FileGroup)

  datatype FileContents = FileContents(source: Url)

  /** The two parts of a URL the translation sets: `scheme:opaquePart`. */
  datatype Url = Url(scheme: string, opaquePart: string)

  datatype FileUser = FileUser(id: int)

  datatype FileGroup = FileGroup(id: int)

  datatype Systemd = Systemd(units: seq<SystemdUnit>)

  datatype SystemdUnit = SystemdUnit(
    name: string,
    enable: bool,
    mask: bool,
    contents: string,
    dropIns: seq<SystemdUnitDropIn>)

  datatype SystemdUnitDropIn = SystemdUnitDropIn(name: string, contents: string)

  datatype Networkd = Networkd(units: seq<NetworkdUnit>)

  datatype NetworkdUnit = NetworkdUnit(name: string, contents: string)

  datatype Passwd = Passwd(users: seq<User>, groups: seq<Group>)

  datatype User = User(
    name: string,
    passwordHash: string,
    sshAuthorizedKeys: seq<string>,
    create: Option<UserCreate>)

  datatype UserCreate = UserCreate(
    uid: Option<nat>,
    gecos: string,
    homedir: string,
    noCreateHome: bool,
    primaryGroup: string,
    groups: seq<string>,
    noUserGroup: bool,
    system: bool,
    noLogInit: bool,
    shell: string)

  datatype Group = Group(name: string, gid: Option<nat>, passwordHash: string, system: bool)
}
