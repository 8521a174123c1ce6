/** The translation between Go's file modes and POSIX st_mode words. */
module FileModes {
  import opened Bytes

  datatype ModeBit =
    | Dir | Append | Exclusive | Temporary | Symlink | Device | NamedPipe
    | Socket | Setuid | Setgid | CharDevice | Sticky | Irregular

  type permissions = p: int | 0 <= p < 512

  /** fs.FileMode: nine permission bits and the set of named bits. */
  datatype FileMode = FileMode(perm: permissions, bits: set<ModeBit>)

  const TYPE_BITS := {Dir, Symlink, NamedPipe, Socket, Device, CharDevice, Irregular}

  const FIFO := 1
  const CHAR_DEVICE := 2
  const DIRECTORY := 4
  const BLOCK_DEVICE := 6
  const REGULAR := 8
  const SYMLINK := 10
  const SOCKET := 12

  function Bit(on: bool): int {
    if on then 1 else 0
  }

  /** The fields of an st_mode word: type, setuid, setgid, sticky, permissions. */
  function PosixWord(kind: int, setuid: bool, setgid: bool, sticky: bool, perm: permissions): u32
    requires 0 <= kind < 16
  {
    perm + 512 * (Bit(sticky) + 2 * (Bit(setgid) + 2 * (Bit(setuid) + 2 * kind)))
  }

  function PosixMode(m: FileMode): (p: u32)
    ensures p < 65536
  {
    PosixWord(
      if Symlink in m.bits then SYMLINK else if Dir in m.bits then DIRECTORY else REGULAR,
      Setuid in m.bits, Setgid in m.bits, Sticky in m.bits, m.perm)
  }

  function TypeBits(kind: int): set<ModeBit> {
    if kind == DIRECTORY then {Dir}
    else if kind == SYMLINK then {Symlink}
    else if kind == CHAR_DEVICE then {Device, CharDevice}
    else if kind == BLOCK_DEVICE then {Device}
    else if kind == FIFO then {NamedPipe}
    else if kind == SOCKET then {Socket}
    else {}
  }

  function OfPosix(p: u32): FileMode {
    var high := p / 512;
    FileMode(
      p % 512,
      TypeBits(high / 2 / 2 / 2 % 16)
      + (if high / 2 / 2 % 2 == 1 then {Setuid} else {})
      + (if high / 2 % 2 == 1 then {Setgid} else {})
      + (if high % 2 == 1 then {Sticky} else {}))
  }

  predicate IsRegular(m: FileMode) {
    m.bits !! TYPE_BITS
  }

  /** The modes both encodings can name: permissions, the three special bits,
      and at most one of directory and symlink. */
  predicate Sendable(m: FileMode) {
    m.bits <= {Setuid, Setgid, Sticky, Dir, Symlink} && !({Dir, Symlink} <= m.bits)
  }

  lemma WordFields(kind: int, setuid: bool, setgid: bool, sticky: bool, perm: permissions)
    requires 0 <= kind < 16
    ensures var p := PosixWord(kind, setuid, setgid, sticky, perm);
            && p % 512 == perm
            && (p / 512 % 2 == 1) == sticky
            && (p / 512 / 2 % 2 == 1) == setgid
            && (p / 512 / 2 / 2 % 2 == 1) == setuid
            && p / 512 / 2 / 2 / 2 % 16 == kind
  {
    var p := PosixWord(kind, setuid, setgid, sticky, perm);
    assert p / 512 == Bit(sticky) + 2 * (Bit(setgid) + 2 * (Bit(setuid) + 2 * kind));
    assert p / 512 / 2 == Bit(setgid) + 2 * (Bit(setuid) + 2 * kind);
    assert p / 512 / 2 / 2 == Bit(setuid) + 2 * kind;
  }

  lemma WordOfFields(p: u32)
    requires p < 65536
    ensures p == PosixWord(p / 512 / 2 / 2 / 2, p / 512 / 2 / 2 % 2 == 1,
                           p / 512 / 2 % 2 == 1, p / 512 % 2 == 1, p % 512)
  {
  }

  /** OfPosix inverts PosixMode exactly on the modes both can name. */
  lemma OfPosixInverts(m: FileMode)
    ensures OfPosix(PosixMode(m)) == m <==> Sendable(m)
  {
    var kind := if Symlink in m.bits then SYMLINK else if Dir in m.bits then DIRECTORY else REGULAR;
    WordFields(kind, Setuid in m.bits, Setgid in m.bits, Sticky in m.bits, m.perm);
    var back := OfPosix(PosixMode(m));
    assert back.bits <= {Setuid, Setgid, Sticky, Dir, Symlink};
    if Sendable(m) {
      forall b: ModeBit
        ensures b in back.bits <==> b in m.bits
      {
      }
      assert back.bits == m.bits;
    }
  }

  /** PosixMode inverts OfPosix exactly on 16-bit words of a regular file, a
      directory or a symlink. */
  lemma PosixModeInverts(p: u32)
    ensures PosixMode(OfPosix(p)) == p <==> p < 65536 && p / 512 / 2 / 2 / 2 in {REGULAR, DIRECTORY, SYMLINK}
  {
    var m := OfPosix(p);
    var kind := if Symlink in m.bits then SYMLINK else if Dir in m.bits then DIRECTORY else REGULAR;
    BitsOf(p);
    hide OfPosix;
    WordFields(kind, Setuid in m.bits, Setgid in m.bits, Sticky in m.bits, m.perm);
    if p < 65536 {
      WordOfFields(p);
    }
  }

  lemma BitsOf(p: u32)
    ensures var m, high := OfPosix(p), p / 512;
            && m.perm == p % 512
            && (Setuid in m.bits <==> high / 2 / 2 % 2 == 1)
            && (Setgid in m.bits <==> high / 2 % 2 == 1)
            && (Sticky in m.bits <==> high % 2 == 1)
            && (Symlink in m.bits <==> high / 2 / 2 / 2 % 16 == SYMLINK)
            && (Dir in m.bits <==> high / 2 / 2 / 2 % 16 == DIRECTORY)
  {
  }
}
