/** The codec table of the SIP settings. */
module Codecs {
  const NUM_AVAILABLE_CODECS := 9

  const G711_A := 0x100
  const G711_U := 0x80
  const G723_1 := 0x40
  const G726_16 := 0x20
  const G726_24 := 0x10
  const G726_32 := 0x8
  const G726_40 := 0x4
  const G729 := 0x2
  const GSM := 0x1

  predicate IsCodec(code: int)
  {
    code in {G711_A, G711_U, G723_1, G726_16, G726_24, G726_32, G726_40, G729, GSM}
  }

  /** libamg_sip_get_codec_name; the original returns NULL for other codes. */
  function CodecName(code: int): (name: string)
    requires IsCodec(code)
    ensures |name| <= 7
  {
    if code == G711_A then "alaw"
    else if code == G711_U then "ulaw"
    else if code == G723_1 then "g723"
    else if code == G726_16 then "g726-16"
    else if code == G726_24 then "g726-24"
    else if code == G726_32 then "g726"
    else if code == G726_40 then "g726-40"
    else if code == G729 then "g729"
    else "gsm"
  }

  lemma NamesOfCodecs()
    ensures CodecName(0x100) == "alaw" && CodecName(0x80) == "ulaw" && CodecName(0x40) == "g723"
    ensures CodecName(0x20) == "g726-16" && CodecName(0x10) == "g726-24" && CodecName(0x8) == "g726"
    ensures CodecName(0x4) == "g726-40" && CodecName(0x2) == "g729" && CodecName(0x1) == "gsm"
  {
  }

  /** strncmp over the length of the name: the name is a prefix. */
  predicate StartsWith(s: string, name: string)
  {
    name <= s
  }

  /** libamg_sip_get_codec_code: the 40 kbit/s name is tried before the name it extends. */
  function CodecCode(s: string): (code: int)
  {
    if StartsWith(s, "alaw") then G711_A
    else if StartsWith(s, "ulaw") then G711_U
    else if StartsWith(s, "g723") then G723_1
    else if StartsWith(s, "g726-16") then G726_16
    else if StartsWith(s, "g726-24") then G726_24
    else if StartsWith(s, "g726-40") then G726_40
    else if StartsWith(s, "g726") then G726_32
    else if StartsWith(s, "g729") then G729
    else if StartsWith(s, "gsm") then GSM
    else -1
  }

  lemma FirstChars(name: string, rest: string)
    ensures forall i | 0 <= i < |name| :: (name + ":" + rest)[i] == name[i]
    ensures (name + ":" + rest)[|name|] == ':'
  {
  }

  /** Every printed "name:interval" is taken for the codec it was printed for, prefixes notwithstanding. */
  lemma NameFindsCode(code: int, rest: string)
    requires IsCodec(code)
    ensures CodecCode(CodecName(code) + ":" + rest) == code
  {
    var name := CodecName(code);
    var s := name + ":" + rest;
    FirstChars(name, rest);
    assert StartsWith(s, name);
    assert s[0] == name[0] && s[1] == name[1] && s[2] == name[2];
    if code != GSM {
      assert s[3] == name[3];
    }
    if code == G726_32 {
      assert s[4] == ':';
    } else if code == G726_40 || code == G726_24 || code == G726_16 {
      assert s[4] == '-' && s[5] == name[5] && s[6] == name[6];
    }
  }
}
