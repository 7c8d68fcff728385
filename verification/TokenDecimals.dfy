/** price_api/vault/adapters/common.py and erc4626.py: the decimals of a token as a 32-byte word, and
    the word that asks a vault for the worth of one share. */
module TokenDecimals {
  import opened Options
  import opened VaultMath

  const MAX_SAFE_TOKEN_DECIMALS := 77
  const WORD := 32

  type byte = x: int | 0 <= x < 256

  function Power256(k: nat): (r: int)
    ensures r >= 1
  {
    if k == 0 then 1 else 256 * Power256(k - 1)
  }

  /** The number that a big-endian string of bytes stands for. */
  function BigEndian(data: seq<byte>): nat {
    if data == [] then 0 else BigEndian(data[..|data| - 1]) * 256 + data[|data| - 1]
  }

  /** `n.to_bytes(length, "big")`; None stands for its OverflowError. */
  function ToBytes(n: nat, length: nat): Option<seq<byte>> {
    if length == 0 then (if n == 0 then Some([]) else None)
    else
      match ToBytes(n / 256, length - 1)
      case None => None
      case Some(high) => Some(high + [n % 256])
  }

  function DecodeTokenDecimals(data: seq<byte>): Option<int> {
    if |data| != WORD || (exists i :: 0 <= i < WORD - 1 && data[i] != 0) then None
    else
      var value := data[WORD - 1];
      if value <= MAX_SAFE_TOKEN_DECIMALS then Some(value) else None
  }

  datatype PyValue = PyBool(b: bool) | PyInt(i: int) | PyOther

  function ValidateTokenDecimals(value: PyValue): Option<int> {
    if value.PyInt? && 0 <= value.i <= MAX_SAFE_TOKEN_DECIMALS then Some(value.i) else None
  }

  lemma {:induction false} BigEndianBounds(data: seq<byte>)
    ensures BigEndian(data) < Power256(|data|)
  {
    if data != [] {
      BigEndianBounds(data[..|data| - 1]);
    }
  }

  /** Encoding succeeds exactly on the numbers that fit, and decoding undoes it. */
  lemma {:induction false} ToBytesFits(n: nat, length: nat)
    ensures ToBytes(n, length).Some? <==> n < Power256(length)
    ensures ToBytes(n, length).Some? ==>
              |ToBytes(n, length).value| == length && BigEndian(ToBytes(n, length).value) == n
  {
    if length > 0 {
      ToBytesFits(n / 256, length - 1);
      if ToBytes(n, length).Some? {
        var high := ToBytes(n / 256, length - 1).value;
        assert (high + [n % 256])[..|high|] == high;
      }
    }
  }

  lemma {:induction false} ToBytesInverts(data: seq<byte>)
    ensures ToBytes(BigEndian(data), |data|) == Some(data)
  {
    if data != [] {
      var init := data[..|data| - 1];
      ToBytesInverts(init);
      assert BigEndian(data) / 256 == BigEndian(init);
      assert data == init + [data[|data| - 1]];
    }
  }

  lemma {:induction false} SmallNumbersHaveZerosInFront(data: seq<byte>)
    requires data != []
    ensures BigEndian(data) < 256 <==> forall i :: 0 <= i < |data| - 1 ==> data[i] == 0
    ensures BigEndian(data) < 256 ==> BigEndian(data) == data[|data| - 1]
  {
    var init := data[..|data| - 1];
    if init != [] {
      SmallNumbersHaveZerosInFront(init);
      assert BigEndian(data) < 256 <==> BigEndian(init) == 0;
      assert init == init[..|init| - 1] + [init[|init| - 1]];
    } else {
      assert BigEndian(init) == 0;
    }
  }

  /** Decoding succeeds exactly on the 32-byte words of 0 to 77, and yields the number written. */
  lemma DecodesExactlySafeWords(data: seq<byte>)
    ensures DecodeTokenDecimals(data)
            == if |data| == 32 && BigEndian(data) <= 77 then Some(BigEndian(data)) else None
  {
    if |data| == WORD {
      SmallNumbersHaveZerosInFront(data);
    }
  }

  /** The word decoder and the check of an already decoded number agree on every uint256. */
  lemma DecoderAgreesWithValidator(n: nat)
    requires n < Power256(WORD)
    ensures ToBytes(n, WORD).Some?
    ensures DecodeTokenDecimals(ToBytes(n, WORD).value) == ValidateTokenDecimals(PyInt(n))
  {
    ToBytesFits(n, WORD);
    DecodesExactlySafeWords(ToBytes(n, WORD).value);
  }

  lemma UintIsAWord()
    ensures Power256(WORD) == MAX_UINT256 + 1
  {
    assert Power256(4) == 0x1_0000_0000;
    Power256Adds(4, 4);
    assert Power256(8) == 0x1_0000_0000_0000_0000;
    Power256Adds(8, 8);
    assert Power256(16) == 0x1_0000_0000_0000_0000_0000_0000_0000_0000;
    Power256Adds(16, 16);
  }

  lemma {:induction false} Power256Adds(a: nat, b: nat)
    ensures Power256(a + b) == Power256(a) * Power256(b)
  {
    if a > 0 {
      Power256Adds(a - 1, b);
      assert Power256(a + b) == 256 * Power256(a - 1 + b);
      assert 256 * (Power256(a - 1) * Power256(b)) == (256 * Power256(a - 1)) * Power256(b);
    }
  }

  lemma {:induction false} Pow10Grows(a: nat, b: nat)
    requires a <= b
    ensures Pow10(a) <= Pow10(b)
  {
    if a < b {
      Pow10Grows(a, b - 1);
    }
  }

  lemma Pow10Of77()
    ensures Pow10(77) <= MAX_UINT256 < Pow10(78)
  {
    Pow10Of13();
    Pow10Product(13, 10000000000000, 13, 10000000000000);
    Pow10Product(26, 100000000000000000000000000, 13, 10000000000000);
    Pow10Product(39, 1000000000000000000000000000000000000000, 39, 1000000000000000000000000000000000000000);
    assert Pow10(78) == 10 * Pow10(77);
  }

  lemma Pow10Of13()
    ensures Pow10(13) == 10000000000000
  {
    assert Pow10(6) == 1000000 && Pow10(7) == 10000000;
    Pow10Product(6, 1000000, 7, 10000000);
  }

  lemma Pow10Product(a: nat, x: int, b: nat, y: int)
    requires Pow10(a) == x && Pow10(b) == y
    ensures Pow10(a + b) == x * y
  {
    Pow10Adds(a, b);
  }

  lemma {:induction false} Pow10Adds(a: nat, b: nat)
    ensures Pow10(a + b) == Pow10(a) * Pow10(b)
  {
    if a > 0 {
      Pow10Adds(a - 1, b);
      assert Pow10(a + b) == 10 * Pow10(a - 1 + b);
      assert 10 * (Pow10(a - 1) * Pow10(b)) == (10 * Pow10(a - 1)) * Pow10(b);
    }
  }

  /** 77 is the largest number of decimals for which one share fits the argument of the call. */
  lemma OneShareFitsAWord(decimals: nat)
    ensures ToBytes(Pow10(decimals), 32).Some? <==> decimals <= 77
  {
    ToBytesFits(Pow10(decimals), WORD);
    UintIsAWord();
    Pow10Of77();
    if decimals <= 77 {
      Pow10Grows(decimals, 77);
    } else {
      Pow10Grows(78, decimals);
    }
  }

  /** Detection never fails on the size of one share: whatever decimals a vault reports, either they
      are refused or the request for one share can be encoded and reads back. */
  lemma DetectedDecimalsCanBeAsked(data: seq<byte>)
    requires DecodeTokenDecimals(data).Some?
    ensures var decimals := DecodeTokenDecimals(data).value;
            decimals >= 0 && ToBytes(Pow10(decimals), WORD).Some?
            && BigEndian(ToBytes(Pow10(decimals), WORD).value) == Pow10(decimals)
  {
    DecodesExactlySafeWords(data);
    OneShareFitsAWord(BigEndian(data));
    ToBytesFits(Pow10(BigEndian(data)), WORD);
  }
}
