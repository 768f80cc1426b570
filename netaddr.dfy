/** The address lines of the dashboard: `getIPAddr` and `getHWAddr`. The
    socket `ioctl` itself is not modelled; its outcome is a parameter,
    `None` when the call raised (the script's bare `except`). */
module NetAddr {
  import opened Strings
  import opened Options

  type byte = x: int | 0 <= x < 256

  /** The sentinels shown when an interface cannot be queried. */
  const NoIp := "000.000.000.000"
  const NoHw := "00:00:00:00:00:00"

  /** `'%02x' % b`: two lower-case hex digits. */
  function Hex2(b: byte): (s: string)
    ensures |s| == 2
  {
    [HexChar(b / 16), HexChar(b % 16)]
  }

  lemma Hex2Value(b: byte)
    ensures HexValue(Hex2(b)[0]) * 16 + HexValue(Hex2(b)[1]) == b
  {
  }

  /** `''.join(['%02x:' % b for b in bs])` */
  function HexWithColons(bs: seq<byte>): (s: string)
    ensures |s| == 3 * |bs|
  {
    if bs == [] then "" else Hex2(bs[0]) + ":" + HexWithColons(bs[1..])
  }

  /** The joined string with its last character dropped (`[:-1]`, which
      leaves an empty string empty). */
  function MacText(bs: seq<byte>): (s: string)
    ensures |s| == if bs == [] then 0 else 3 * |bs| - 1
  {
    var j := HexWithColons(bs);
    if j == "" then "" else j[..|j| - 1]
  }

  /** `getHWAddr`: the hardware address from bytes 18..24 of the ioctl
      answer, or the sentinel when the call failed. */
  function HwAddr(info: Option<seq<byte>>): (r: string)
    ensures info.None? ==> r == NoHw
    ensures info.Some? && |info.value| == 6 ==>
      |r| == 17 && ParseMac(r) == info.value && forall k :: 0 <= k < 5 ==> r[3 * k + 2] == ':'
  {
    match info
    case None => NoHw
    case Some(bs) => if |bs| == 6 then MacShape(bs); MacText(bs) else MacText(bs)
  }

  /** Byte `k` of the input sits at positions `3k`, `3k+1` of the joined
      string, followed by a colon. */
  lemma {:induction false} HexWithColonsAt(bs: seq<byte>, k: int)
    requires 0 <= k < |bs|
    ensures HexWithColons(bs)[3 * k] == Hex2(bs[k])[0]
    ensures HexWithColons(bs)[3 * k + 1] == Hex2(bs[k])[1]
    ensures HexWithColons(bs)[3 * k + 2] == ':'
  {
    var h := Hex2(bs[0]);
    var t := HexWithColons(bs[1..]);
    assert HexWithColons(bs) == h + ":" + t;
    if k > 0 {
      HexWithColonsAt(bs[1..], k - 1);
      assert bs[k] == bs[1..][k - 1];
    }
  }

  /** Reads the bytes back out of a colon-separated hex string: byte `k` from
      positions `3k` and `3k + 1`. */
  function ParseMac(s: string): seq<int> {
    seq((|s| + 1) / 3, k requires 0 <= k < (|s| + 1) / 3 =>
      if 3 * k + 1 < |s| then HexValue(s[3 * k]) * 16 + HexValue(s[3 * k + 1]) else -1)
  }

  /** For the six bytes of an Ethernet address the text is
      `xx:xx:xx:xx:xx:xx`: 17 characters, colons at every third place, and
      the bytes read back unchanged. */
  lemma MacShape(bs: seq<byte>)
    requires |bs| == 6
    ensures |MacText(bs)| == 17
    ensures forall k :: 0 <= k < 5 ==> MacText(bs)[3 * k + 2] == ':'
    ensures ParseMac(MacText(bs)) == bs
  {
    var s := MacText(bs);
    var j := HexWithColons(bs);
    assert s == j[..17];
    forall k | 0 <= k < 5
      ensures s[3 * k + 2] == ':'
    {
      HexWithColonsAt(bs, k);
    }
    forall k | 0 <= k < 6
      ensures HexValue(s[3 * k]) * 16 + HexValue(s[3 * k + 1]) == bs[k]
    {
      HexWithColonsAt(bs, k);
      Hex2Value(bs[k]);
    }
    var p := ParseMac(s);
    assert |p| == 6;
    forall k | 0 <= k < 6
      ensures p[k] == bs[k]
    {
    }
  }

  /** `socket.inet_ntoa`: dotted decimal of exactly four bytes; any other
      length raises, which the script turns into the sentinel. */
  function IpAddr(addr: Option<seq<byte>>): (r: string)
    ensures 7 <= |r| <= 15
    ensures addr.None? || |addr.value| != 4 ==> r == NoIp
  {
    match addr
    case Some(bs) =>
      if |bs| == 4 then
        NatTextShort(bs[0]);
        NatTextShort(bs[1]);
        NatTextShort(bs[2]);
        NatTextShort(bs[3]);
        NatText(bs[0]) + "." + NatText(bs[1]) + "." + NatText(bs[2]) + "." + NatText(bs[3])
      else NoIp
    case None => NoIp
  }

  /** The address always fits the 15-character column it is padded to, so
      the `ljust(15)` of lines 535 and 537 gives exactly 15 characters, and a
      hardware address of six bytes fills its 17-character column exactly. */
  lemma AddressWidths(addr: Option<seq<byte>>, info: Option<seq<byte>>)
    ensures |IpAddr(addr)| <= 15 && |LJust(IpAddr(addr), 15)| == 15
    ensures info.None? || |info.value| == 6 ==> |LJust(HwAddr(info), 17)| == 17
  {
  }
}
