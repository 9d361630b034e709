/**
 Strict decoding of the history events out of stored logs (server/chain-indexer-raid-history.js:19-76,
 server/chain-indexer-build-history.js:23-88), with the ABI encoding it inverts.
 */
module EventDecoding {
  import opened Wrappers
  import opened ChainTypes

  /** topic0 of the three events, the keccak-256 hash of their signatures. */
  const RAID_RESOLVED_SELECTOR: Hash := 0xaf390e913745195551ff780aa23ddccc7690fcc6889ed8f3561f369430dcfc06
  const UPGRADE_STARTED_SELECTOR: Hash := 0x144141764db612aa165244e4757ada45377f0b035a67623f12033b0eb8301296
  const BUILDING_UPGRADED_SELECTOR: Hash := 0x325e62cb3e0c4cb63ebf0d0f649861aa0425dceca42189cc0b5d7c7d797a971e

  const WORD: nat := 64
  const ADDRESSES: nat := 0x1_0000000000_0000000000_0000000000_0000000000
  const MAX_UINT64: nat := 0xffff_ffff_ffff_ffff

  datatype Role = Attacker | Defender

  datatype Resources = Resources(wood: nat, clay: nat, stone: nat, gold: nat)

  /** Where an event happened. */
  datatype Place = Place(blockNumber: nat, time: nat, txHash: Hash, logIndex: nat)

  datatype Event =
    | RaidResolved(role: Role, counterparty: Address, attackerWon: bool, attack: nat, defense: nat,
                   resources: Resources, at: Place)
    | UpgradeStarted(building: nat, value: nat, at: Place)
    | BuildingUpgraded(building: nat, value: nat, at: Place)

  // ---------------------------------------------------------------- words

  function Pow16(k: nat): (p: nat)
    ensures p > 0
  {
    if k == 0 then 1 else 16 * Pow16(k - 1)
  }

  /** The number a run of hex digits spells. */
  function Value(digits: seq<Nibble>): (n: nat)
    ensures n < Pow16(|digits|)
  {
    if digits == [] then 0 else 16 * Value(digits[..|digits| - 1]) + digits[|digits| - 1]
  }

  /** The `k` lowest hex digits of `n`. */
  function Digits(n: nat, k: nat): (digits: seq<Nibble>)
    ensures |digits| == k
  {
    if k == 0 then [] else Digits(n / 16, k - 1) + [n % 16]
  }

  lemma {:induction false} ValueOfDigits(n: nat, k: nat)
    requires n < Pow16(k)
    ensures Value(Digits(n, k)) == n
  {
    if k > 0 {
      ValueOfDigits(n / 16, k - 1);
      assert Digits(n, k)[..k - 1] == Digits(n / 16, k - 1);
    }
  }

  lemma {:induction false} DigitsOfValue(digits: seq<Nibble>)
    ensures Digits(Value(digits), |digits|) == digits
  {
    if digits != [] {
      DigitsOfValue(digits[..|digits| - 1]);
    }
  }

  /** The `i`-th 32-byte word of a log's data. */
  function Word(data: seq<Nibble>, i: nat): nat
    requires WORD * (i + 1) <= |data|
  {
    Value(data[WORD * i..WORD * (i + 1)])
  }

  function Encode(words: seq<nat>): (data: seq<Nibble>)
    ensures |data| == WORD * |words|
  {
    if words == [] then [] else Encode(words[..|words| - 1]) + Digits(words[|words| - 1], WORD)
  }

  ghost predicate AreWords(words: seq<nat>) {
    forall i :: 0 <= i < |words| ==> words[i] < Pow16(WORD)
  }

  lemma {:induction false} WordOfEncode(words: seq<nat>, i: nat)
    requires i < |words| && AreWords(words)
    ensures Word(Encode(words), i) == words[i]
  {
    var n := |words| - 1;
    if i == n {
      ValueOfDigits(words[n], WORD);
      assert Encode(words)[WORD * n..WORD * (n + 1)] == Digits(words[n], WORD);
    } else {
      WordOfEncode(words[..n], i);
      assert Encode(words)[WORD * i..WORD * (i + 1)] == Encode(words[..n])[WORD * i..WORD * (i + 1)];
    }
  }

  function Words(data: seq<Nibble>, n: nat): (words: seq<nat>)
    requires WORD * n <= |data|
    ensures |words| == n && forall i :: 0 <= i < n ==> words[i] == Word(data, i)
  {
    seq(n, i requires 0 <= i < n => Word(data, i))
  }

  lemma WordsOfFront(data: seq<Nibble>, n: nat)
    requires n > 0 && |data| == WORD * n
    ensures WORD * (n - 1) <= |data|
    ensures Words(data, n)[..n - 1] == Words(data[..WORD * (n - 1)], n - 1)
  {
    hide Value;
    var front := data[..WORD * (n - 1)];
    forall i | 0 <= i < n - 1
      ensures Word(front, i) == Word(data, i)
    {
      assert front[WORD * i..WORD * (i + 1)] == data[WORD * i..WORD * (i + 1)];
    }
  }

  lemma {:induction false} EncodeOfWords(data: seq<Nibble>, n: nat)
    requires |data| == WORD * n
    ensures Encode(Words(data, n)) == data && AreWords(Words(data, n))
  {
    hide Value, Digits;
    if n > 0 {
      var front, last := data[..WORD * (n - 1)], data[WORD * (n - 1)..WORD * n];
      EncodeOfWords(front, n - 1);
      WordsOfFront(data, n);
      DigitsOfValue(last);
      assert data == front + last;
      assert Words(data, n) == Words(front, n - 1) + [Word(data, n - 1)];
    }
  }

  // ---------------------------------------------------------------- raids

  function DecodeRaid(log: Log, time: nat, wallet: Address): Option<Event> {
    if |log.topics| != 3 || log.topics[0] != RAID_RESOLVED_SELECTOR || |log.data| != 7 * WORD then None
    else if !(log.topics[1] < ADDRESSES && log.topics[2] < ADDRESSES && wallet < ADDRESSES) then None
    else
      var attacker, defender := log.topics[1], log.topics[2];
      if attacker != wallet && defender != wallet then None
      else
        var words := Words(log.data, 7);
        if words[0] > 1 then None
        else
          var role := if attacker == wallet then Attacker else Defender;
          Some(RaidResolved(role, if role.Attacker? then defender else attacker, words[0] == 1, words[1], words[2],
                            Resources(words[3], words[4], words[5], words[6]),
                            Place(log.blockNumber, time, log.txHash, log.logIndex)))
  }

  function RaidTopics(e: Event, wallet: Address): seq<Hash>
    requires e.RaidResolved?
  {
    if e.role.Attacker? then [RAID_RESOLVED_SELECTOR, wallet, e.counterparty]
    else [RAID_RESOLVED_SELECTOR, e.counterparty, wallet]
  }

  function RaidWords(e: Event): seq<nat>
    requires e.RaidResolved?
  {
    [if e.attackerWon then 1 else 0, e.attack, e.defense,
     e.resources.wood, e.resources.clay, e.resources.stone, e.resources.gold]
  }

  /** `log` is the ABI encoding of raid `e` as `wallet` sees it. */
  ghost predicate EncodesRaid(log: Log, time: nat, wallet: Address, e: Event) {
    && e.RaidResolved? && wallet < ADDRESSES && e.counterparty < ADDRESSES
    && (e.role.Defender? ==> e.counterparty != wallet)
    && AreWords(RaidWords(e))
    && log.topics == RaidTopics(e, wallet) && log.data == Encode(RaidWords(e))
    && e.at == Place(log.blockNumber, time, log.txHash, log.logIndex)
  }

  lemma RaidWordsDecode(log: Log, words: seq<nat>)
    requires |words| == 7 && AreWords(words) && log.data == Encode(words)
    ensures |log.data| == 7 * WORD && Words(log.data, 7) == words
  {
    forall i | 0 <= i < 7
      ensures Words(log.data, 7)[i] == words[i]
    {
      WordOfEncode(words, i);
    }
  }

  lemma RaidDecodes(log: Log, time: nat, wallet: Address, e: Event)
    requires EncodesRaid(log, time, wallet, e)
    ensures DecodeRaid(log, time, wallet) == Some(e)
  {
    hide Words, Encode, AreWords;
    RaidWordsDecode(log, RaidWords(e));
  }

  lemma RaidReencodes(log: Log, time: nat, wallet: Address, e: Event)
    requires DecodeRaid(log, time, wallet) == Some(e)
    ensures EncodesRaid(log, time, wallet, e)
  {
    hide Word, Encode, AreWords;
    EncodeOfWords(log.data, 7);
    var words := Words(log.data, 7);
    assert words == [words[0], words[1], words[2], words[3], words[4], words[5], words[6]];
    assert RaidWords(e) == words;
    assert log.topics == [log.topics[0], log.topics[1], log.topics[2]];
    assert log.topics == RaidTopics(e, wallet);
  }

  /** Decoding accepts exactly the encodings: it loses nothing and invents nothing. */
  lemma RaidDecodingInvertsEncoding(log: Log, time: nat, wallet: Address, e: Event)
    ensures DecodeRaid(log, time, wallet) == Some(e) <==> EncodesRaid(log, time, wallet, e)
  {
    hide DecodeRaid, EncodesRaid;
    if EncodesRaid(log, time, wallet, e) {
      RaidDecodes(log, time, wallet, e);
    }
    if DecodeRaid(log, time, wallet) == Some(e) {
      RaidReencodes(log, time, wallet, e);
    }
  }

  // ---------------------------------------------------------------- construction

  function DecodeBuild(log: Log, time: nat, wallet: Address): Option<Event> {
    if |log.topics| != 3 || !(log.topics[0] in {UPGRADE_STARTED_SELECTOR, BUILDING_UPGRADED_SELECTOR}) then None
    else if !(wallet < ADDRESSES && log.topics[1] == wallet) || log.topics[2] > 7 || |log.data| != WORD then None
    else
      var value := Word(log.data, 0);
      var at := Place(log.blockNumber, time, log.txHash, log.logIndex);
      if log.topics[0] == UPGRADE_STARTED_SELECTOR then
        if value > MAX_UINT64 then None else Some(UpgradeStarted(log.topics[2], value, at))
      else if value < 1 || value > 30 then None
      else Some(BuildingUpgraded(log.topics[2], value, at))
  }

  /** `log` is the ABI encoding of construction fact `e` of `wallet`. */
  ghost predicate EncodesBuild(log: Log, time: nat, wallet: Address, e: Event) {
    && !e.RaidResolved? && wallet < ADDRESSES && e.building <= 7 && e.value < Pow16(WORD)
    && (if e.UpgradeStarted? then e.value <= MAX_UINT64 else 1 <= e.value <= 30)
    && log.topics
       == [if e.UpgradeStarted? then UPGRADE_STARTED_SELECTOR else BUILDING_UPGRADED_SELECTOR, wallet, e.building]
    && log.data == Encode([e.value])
    && e.at == Place(log.blockNumber, time, log.txHash, log.logIndex)
  }

  lemma BuildDecodingInvertsEncoding(log: Log, time: nat, wallet: Address, e: Event)
    ensures DecodeBuild(log, time, wallet) == Some(e) <==> EncodesBuild(log, time, wallet, e)
  {
    hide Value, Pow16, Encode;
    if EncodesBuild(log, time, wallet, e) {
      WordOfEncode([e.value], 0);
    }
    if DecodeBuild(log, time, wallet) == Some(e) {
      EncodeOfWords(log.data, 1);
      assert Words(log.data, 1) == [e.value];
    }
  }
}
