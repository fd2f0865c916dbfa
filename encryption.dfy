/** Obfuscation of the stored sync credentials: each UTF-16 code unit of the
    text is XOR-ed with the machine key, repeated, and the result is base64
    encoded. `btoa` and `atob` are parameters: `btoa` fails (throws) on a code
    unit above 0xFF, `atob` fails on text that is not base64. */
module Encryption {
  import opened Base

  /** A UTF-16 code unit, as `charCodeAt` returns it. */
  type CodeUnit = x: int | 0 <= x < 0x1_0000

  /** Bitwise exclusive or of two non-negative numbers, bit by bit from the
      lowest. */
  function BitXor(a: nat, b: nat): nat
    decreases a + b
  {
    if a == 0 then b
    else if b == 0 then a
    else 2 * BitXor(a / 2, b / 2) + (if a % 2 == b % 2 then 0 else 1)
  }

  /** XOR-ing with the same number twice undoes it. */
  lemma {:induction false} BitXorInvolution(a: nat, b: nat)
    ensures BitXor(BitXor(a, b), b) == a
    decreases a + b
  {
    if a != 0 && b != 0 {
      BitXorInvolution(a / 2, b / 2);
      var x := BitXor(a / 2, b / 2);
      var c := BitXor(a, b);
      assert c / 2 == x && c % 2 == (if a % 2 == b % 2 then 0 else 1);
      if c == 0 {
        assert x == 0 && a / 2 == b / 2 && a % 2 == b % 2;
      }
    } else if a == 0 && b != 0 {
      BitXorSelf(b);
    }
  }

  lemma {:induction false} BitXorSelf(b: nat)
    ensures BitXor(b, b) == 0
    decreases b
  {
    if b != 0 {
      BitXorSelf(b / 2);
    }
  }

  /** XOR never sets a bit above the highest bit of its operands. */
  lemma {:induction false} BitXorBound(a: nat, b: nat, m: nat)
    requires m > 0 && a < Pow2(m) && b < Pow2(m)
    ensures BitXor(a, b) < Pow2(m)
    decreases m
  {
    if a != 0 && b != 0 {
      if m == 1 {
        assert a == 1 && b == 1;
        assert BitXor(a, b) == 2 * BitXor(0, 0);
      } else {
        BitXorBound(a / 2, b / 2, m - 1);
      }
    }
  }

  lemma Pow2Values()
    ensures Pow2(8) == 0x100 && Pow2(16) == 0x1_0000
  {
    assert Pow2(4) == 16;
    assert Pow2(8) == 0x100;
    assert Pow2(12) == 0x1000;
  }

  function Pow2(m: nat): (p: nat)
    ensures p >= 1
  {
    if m == 0 then 1 else 2 * Pow2(m - 1)
  }

  /** Every code unit fits in one byte, the domain of `btoa`. */
  predicate Latin1(u: seq<CodeUnit>) {
    forall i :: 0 <= i < |u| ==> u[i] < 0x100
  }

  /** `getMachineKey`: built from the screen size inside a window, a fixed
      key otherwise. */
  function MachineKey(screen: Option<(int, int)>): (k: string)
    ensures |k| > 0
  {
    match screen
    case Some((width, height)) =>
      "diffking-" + IntToString(width) + "-" + IntToString(height) + "-jobtracker"
    case None => "default-key"
  }

  /** The code units of a string of characters below 0x10000. */
  function Units(s: string): (u: seq<CodeUnit>)
    requires forall i :: 0 <= i < |s| ==> s[i] as int < 0x1_0000
    ensures |u| == |s| && forall i :: 0 <= i < |s| ==> u[i] == s[i] as int
  {
    seq(|s|, i requires 0 <= i < |s| => s[i] as int)
  }

  /** Plain seven-bit ASCII text. */
  predicate Ascii(s: string) {
    forall i :: 0 <= i < |s| ==> s[i] as int < 0x80
  }

  lemma AsciiConcat(a: string, b: string)
    requires Ascii(a) && Ascii(b)
    ensures Ascii(a + b)
  {
  }

  lemma IntToStringAscii(n: int)
    ensures Ascii(IntToString(n))
  {
  }

  /** The key is never empty and is plain ASCII, so its code units are Latin-1. */
  lemma MachineKeyAscii(screen: Option<(int, int)>)
    ensures Ascii(MachineKey(screen))
  {
    if screen.Some? {
      var (w, h) := screen.value;
      var a, b := IntToString(w), IntToString(h);
      IntToStringAscii(w);
      IntToStringAscii(h);
      AsciiConcat("diffking-", a);
      AsciiConcat("diffking-" + a, "-");
      AsciiConcat("diffking-" + a + "-", b);
      AsciiConcat("diffking-" + a + "-" + b, "-jobtracker");
    }
  }

  /** The key's code units; they all lie below 0x80. */
  function KeyUnits(screen: Option<(int, int)>): (u: seq<CodeUnit>)
    ensures |u| > 0 && forall i :: 0 <= i < |u| ==> u[i] < 0x80
  {
    MachineKeyAscii(screen);
    Units(MachineKey(screen))
  }

  /** `String.fromCharCode(a ^ b)` on two code units. */
  function XorUnit(a: CodeUnit, b: CodeUnit): (r: CodeUnit)
    ensures r == BitXor(a, b)
  {
    Pow2Values();
    BitXorBound(a, b, 16);
    BitXor(a, b)
  }

  /** The map shared by `encrypt` and `decrypt`: code unit i XOR key unit
      i mod the key length. */
  function Xor(text: seq<CodeUnit>, key: seq<CodeUnit>): (r: seq<CodeUnit>)
    requires |key| > 0
    ensures |r| == |text|
    ensures forall i :: 0 <= i < |text| ==> r[i] == BitXor(text[i], key[i % |key|])
  {
    seq(|text|, i requires 0 <= i < |text| => XorUnit(text[i], key[i % |key|]))
  }

  /** XOR-ing twice with the same key gives the text back. */
  lemma XorInvolution(text: seq<CodeUnit>, key: seq<CodeUnit>)
    requires |key| > 0
    ensures Xor(Xor(text, key), key) == text
  {
    var once := Xor(text, key);
    var twice := Xor(once, key);
    forall i | 0 <= i < |text|
      ensures twice[i] == text[i]
    {
      BitXorInvolution(text[i], key[i % |key|]);
    }
  }

  /** XOR with a Latin-1 key keeps Latin-1 text Latin-1. */
  lemma XorLatin1(text: seq<CodeUnit>, key: seq<CodeUnit>)
    requires |key| > 0 && Latin1(text) && Latin1(key)
    ensures Latin1(Xor(text, key))
  {
    var r := Xor(text, key);
    forall i | 0 <= i < |text|
      ensures r[i] < 0x100
    {
      Pow2Values();
      BitXorBound(text[i], key[i % |key|], 8);
    }
  }

  /** `encrypt`: the empty string for empty text; otherwise `btoa` of the
      XOR-ed code units, None where `btoa` throws. */
  function Encrypt(text: seq<CodeUnit>, key: seq<CodeUnit>, btoa: seq<CodeUnit> -> Option<string>): (r: Option<string>)
    requires |key| > 0
    ensures text == [] ==> r == Some("")
    ensures text != [] ==> r == btoa(Xor(text, key))
  {
    if text == [] then Some("") else btoa(Xor(text, key))
  }

  /** `decrypt`: empty input and input `atob` rejects both give the empty
      string; otherwise the decoded code units XOR-ed with the key. */
  function Decrypt(encoded: string, key: seq<CodeUnit>, atob: string -> Option<seq<CodeUnit>>): (r: seq<CodeUnit>)
    requires |key| > 0
    ensures encoded == "" ==> r == []
    ensures encoded != "" && atob(encoded).None? ==> r == []
    ensures encoded != "" && atob(encoded).Some? ==> r == Xor(atob(encoded).value, key)
  {
    if encoded == "" then []
    else match atob(encoded)
      case None => []
      case Some(decoded) => Xor(decoded, key)
  }

  /** What the browser's base64 pair promises: `btoa` accepts every Latin-1
      string, encodes a non-empty one as non-empty text, and `atob` decodes
      it back. */
  ghost predicate Base64Pair(btoa: seq<CodeUnit> -> Option<string>, atob: string -> Option<seq<CodeUnit>>) {
    forall u :: Latin1(u) ==>
      btoa(u).Some? && (u != [] ==> btoa(u).value != "") && atob(btoa(u).value) == Some(u)
  }

  /** Latin-1 text under a Latin-1 key always encrypts, and decrypting the
      result gives the text back. */
  lemma DecryptEncrypt(text: seq<CodeUnit>, key: seq<CodeUnit>,
                       btoa: seq<CodeUnit> -> Option<string>, atob: string -> Option<seq<CodeUnit>>)
    requires |key| > 0 && Latin1(text) && Latin1(key) && Base64Pair(btoa, atob)
    ensures Encrypt(text, key, btoa).Some?
    ensures Decrypt(Encrypt(text, key, btoa).value, key, atob) == text
  {
    if text != [] {
      XorLatin1(text, key);
      XorInvolution(text, key);
    }
  }

  /** Credentials stored on this machine: with the machine's own key, Latin-1
      text comes back from `decrypt(encrypt(text))`. */
  lemma MachineRoundTrip(text: seq<CodeUnit>, screen: Option<(int, int)>,
                         btoa: seq<CodeUnit> -> Option<string>, atob: string -> Option<seq<CodeUnit>>)
    requires Latin1(text) && Base64Pair(btoa, atob)
    ensures Encrypt(text, KeyUnits(screen), btoa).Some?
    ensures Decrypt(Encrypt(text, KeyUnits(screen), btoa).value, KeyUnits(screen), atob) == text
  {
    DecryptEncrypt(text, KeyUnits(screen), btoa, atob);
  }
}
