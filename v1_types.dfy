/**
  The version-1 Ignition configuration, restricted to the fields the
  translation reads. Go pointers that may be nil are `Option`s; Go strings and
  the named string types (paths, labels, unit names) are `string`; Go's
  unsigned integers are `nat`.
 */
module V1Types {
  import opened Wrappers

  datatype Config = Config(storage: Storage, systemd: Systemd, networkd: Networkd, passwd: Passwd)

  datatype Storage = Storage(disks: seq<Disk>, arrays: seq<Raid>, filesystems: seq<Filesystem>)

  datatype Disk = Disk(device: string, wipeTable: bool, partitions: seq<Partition>)

  datatype Partition = Partition(partitionLabel: string, number: int, size: nat, start: nat, typeGuid: string)

  datatype Raid = Raid(name: string, level: string, devices: seq<string>, spares: int)

  /** A filesystem holds the files written onto it. */
  datatype Filesystem = Filesystem(
    device: string,
    format: string,
    create: Option<FilesystemCreate>,
    files: seq<File>)

  datatype FilesystemCreate = FilesystemCreate(force: bool, options: seq<string>)

  /** A file with literal contents and numeric owner ids. */
  datatype File = File(path: string, contents: string, mode: nat, uid: int, gid: int)

  datatype Systemd = Systemd(units: seq<SystemdUnit>)

  datatype SystemdUnit = SystemdUnit(
    name: string,
    enable: bool,
    mask: bool,
    contents: string,
    dropIns: seq<SystemdUnitDropIn>)

  datatype SystemdUnitDropIn = SystemdUnitDropIn(name: string, contents: string)

  datatype Networkd = Networkd(units: seq<NetworkdUnit>)

  datatype NetworkdUnit = NetworkdUnit(name: string, contents: string)

  datatype Passwd = Passwd(users: seq<User>, groups: seq<Group>)

  datatype User = User(
    name: string,
    passwordHash: string,
    sshAuthorizedKeys: seq<string>,
    create: Option<UserCreate>)

  datatype UserCreate = UserCreate(
    uid: Option<nat>,
    gecos: string,
    homedir: string,
    noCreateHome: bool,
    primaryGroup: string,
    groups: seq<string>,
    noUserGroup: bool,
    system: bool,
    noLogInit: bool,
    shell: string)

  datatype Group = Group(name: string, gid: Option<nat>, passwordHash: string, system: bool)
}
