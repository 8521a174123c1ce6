/** The protocols at concrete bytes: ids, lengths, byte order and limits. */
module WireBytes {
  import opened Bytes
  import opened Options
  import Decimal
  import opened FileModes
  import S = SyncWire
  import H = HostFraming
  import V = ShellV2

  /** Words are little-endian. */
  lemma LittleEndian()
    ensures PutU32(0x0403_0201) == [1, 2, 3, 4] && GetU32([1, 2, 3, 4]) == 0x0403_0201
  {
    GetPut(0x0403_0201);
  }

  // ---------------------------------------------------------------------
  // File sync
  // ---------------------------------------------------------------------

  lemma SyncLimits()
    ensures S.DATA_MAX == 65536 && S.PATH_MAX == 1024 && S.HEADER_LEN == 8
  {
  }

  lemma SmallWord(n: u32)
    requires n < 256
    ensures PutU32(n) == [n, 0, 0, 0]
  {
  }

  lemma ModeDigits()
    ensures S.DecimalBytes(33188) == [0x33, 0x33, 0x31, 0x38, 0x38]
  {
    assert Decimal.Digits(3) == [3];
    assert Decimal.Digits(33) == [3, 3];
    assert Decimal.Digits(331) == [3, 3, 1];
    assert Decimal.Digits(3318) == [3, 3, 1, 8];
    assert Decimal.Digits(33188) == [3, 3, 1, 8, 8];
  }

  /** STAT, RECV and LIST of "/", and the QUIT of a Close. */
  lemma PathRequests()
    ensures S.Encode(S.Stat([0x2F])) == [0x53, 0x54, 0x41, 0x54, 1, 0, 0, 0, 0x2F]
    ensures S.Encode(S.Recv([0x2F])) == [0x52, 0x45, 0x43, 0x56, 1, 0, 0, 0, 0x2F]
    ensures S.Encode(S.List([0x2F])) == [0x4C, 0x49, 0x53, 0x54, 1, 0, 0, 0, 0x2F]
    ensures S.Frame(S.QUIT, []) == [0x51, 0x55, 0x49, 0x54, 0, 0, 0, 0]
  {
    SmallWord(1);
    SmallWord(0);
    hide PutU32;
  }

  /** SEND of "a" with mode 0100644 and the two bytes "xy". */
  lemma SendRequest()
    ensures S.Encode(S.Send([0x61], 33188, [[0x78, 0x79]], 0x0403_0201)) ==
            [0x53, 0x45, 0x4E, 0x44, 7, 0, 0, 0, 0x61, 0x2C, 0x33, 0x33, 0x31, 0x38, 0x38]
            + [0x44, 0x41, 0x54, 0x41, 2, 0, 0, 0, 0x78, 0x79]
            + [0x44, 0x4F, 0x4E, 0x45, 1, 2, 3, 4]
  {
    ModeDigits();
    LittleEndian();
    SmallWord(7);
    SmallWord(2);
    hide PutU32, S.DecimalBytes;
    assert S.SendSpec([0x61], 33188) == [0x61, 0x2C, 0x33, 0x33, 0x31, 0x38, 0x38];
    assert S.DataFrames([[0x78, 0x79]]) == [0x44, 0x41, 0x54, 0x41, 2, 0, 0, 0, 0x78, 0x79] by {
      assert [[0x78, 0x79]][1..] == [];
    }
  }

  /** The four replies, and a FAIL's header: the words stand in this order. */
  lemma Replies()
    ensures S.EncodeReply(S.Okay(0)) == [0x4F, 0x4B, 0x41, 0x59, 0, 0, 0, 0]
    ensures S.EncodeReply(S.Lstat(1, 2, 3)) == [0x53, 0x54, 0x41, 0x54, 1, 0, 0, 0, 2, 0, 0, 0, 3, 0, 0, 0]
    ensures S.EncodeReply(S.File([], 0)) == [0x44, 0x4F, 0x4E, 0x45, 0, 0, 0, 0]
    ensures S.DentFrame(S.Dent(1, 2, 3, [0x61])) ==
            [0x44, 0x45, 0x4E, 0x54, 1, 0, 0, 0, 2, 0, 0, 0, 3, 0, 0, 0, 1, 0, 0, 0, 0x61]
    ensures S.Header(S.FAIL, 0) == [0x46, 0x41, 0x49, 0x4C, 0, 0, 0, 0]
  {
    SmallWord(0);
    SmallWord(1);
    SmallWord(2);
    SmallWord(3);
    hide PutU32;
  }

  // ---------------------------------------------------------------------
  // Modes: the words of st_mode, in octal beside each
  // ---------------------------------------------------------------------

  lemma SentModes()
    ensures PosixMode(FileMode(420, {})) == 33188             // 0100644
    ensures PosixMode(FileMode(493, {Dir})) == 16877          // 0040755
    ensures PosixMode(FileMode(511, {Symlink})) == 41471      // 0120777
    ensures PosixMode(FileMode(493, {Setuid})) == 35309       // 0104755
    ensures PosixMode(FileMode(493, {Setgid})) == 34285       // 0102755
    ensures PosixMode(FileMode(511, {Dir, Sticky})) == 17407  // 0041777
  {
  }

  lemma ReadModes()
    ensures OfPosix(33188) == FileMode(420, {}) && IsRegular(OfPosix(33188))
    ensures OfPosix(16877) == FileMode(493, {Dir}) && !IsRegular(OfPosix(16877))
    ensures OfPosix(41471) == FileMode(511, {Symlink}) && !IsRegular(OfPosix(41471))
  {
  }

  lemma ReadSpecialModes()
    ensures OfPosix(8630) == FileMode(438, {Device, CharDevice}) && !IsRegular(OfPosix(8630))  // 0020666
    ensures OfPosix(25008) == FileMode(432, {Device}) && !IsRegular(OfPosix(25008))            // 0060660
    ensures OfPosix(4516) == FileMode(420, {NamedPipe}) && !IsRegular(OfPosix(4516))           // 0010644
    ensures OfPosix(49645) == FileMode(493, {Socket}) && !IsRegular(OfPosix(49645))            // 0140755
  {
  }

  lemma ReadModeBits()
    ensures OfPosix(35309) == FileMode(493, {Setuid}) && OfPosix(34285) == FileMode(493, {Setgid})
    ensures OfPosix(17407) == FileMode(511, {Dir, Sticky})
  {
  }

  // ---------------------------------------------------------------------
  // Shell v2 and host framing
  // ---------------------------------------------------------------------

  /** "hi" on stdout, "!" on stderr, and exit status 3. */
  lemma ShellPackets()
    ensures V.Encode(V.Packet(V.STDOUT, [0x68, 0x69])) == [1, 2, 0, 0, 0, 0x68, 0x69]
    ensures V.Encode(V.Packet(V.STDERR, [0x21])) == [2, 1, 0, 0, 0, 0x21]
    ensures V.Encode(V.Packet(V.EXIT, [3])) == [3, 1, 0, 0, 0, 3]
    ensures V.MAX_PACKET == 1_048_576
  {
    SmallWord(2);
    SmallWord(1);
    hide PutU32;
  }

  /** "host" framed, and a prefix in either case. */
  lemma HostFrames()
    ensures H.Frame([0x68, 0x6F, 0x73, 0x74]) == [0x30, 0x30, 0x30, 0x34, 0x68, 0x6F, 0x73, 0x74]
    ensures H.Hex4(0xAB0C) == [0x61, 0x62, 0x30, 0x63]
    ensures H.PrefixValue([0x61, 0x62, 0x30, 0x63]) == Some(0xAB0C)
    ensures H.PrefixValue([0x41, 0x42, 0x30, 0x43]) == Some(0xAB0C)
    ensures H.MAX_MESSAGE == 65535
  {
    H.FourDigits([0x61, 0x62, 0x30, 0x63]);
    H.FourDigits([0x41, 0x42, 0x30, 0x43]);
    hide H.HexNumber;
  }
}
