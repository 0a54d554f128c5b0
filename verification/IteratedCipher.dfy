/** Ciphers that alternate a substitution layer, a mixing layer and the addition of a round
    key, and the equivalent inverse cipher of FIPS 197 section 5.3.5, for any layers. */
module IteratedCipher {

  // The substitution layer, the mixing layer, what undoes each, and key addition.
  datatype Layers<!B> = Layers(sub: B -> B, unsub: B -> B, mix: B -> B, unmix: B -> B, add: (B, B) -> B)

  ghost predicate Invertible<B(!new)>(l: Layers<B>) {
    && (forall b :: l.unsub(l.sub(b)) == b)
    && (forall b, k :: l.add(l.add(b, k), k) == b)
    && (forall b, k :: l.add(l.unmix(l.add(l.mix(b), k)), l.unmix(k)) == b)
  }

  // The state after round i of the cipher (Figure 5), for i below the number of rounds.
  function EncState<B>(l: Layers<B>, b: B, keys: seq<B>, i: nat): B
    requires i < |keys|
  {
    if i == 0 then l.add(b, keys[0]) else l.add(l.mix(l.sub(EncState(l, b, keys, i - 1))), keys[i])
  }

  // full is the number of rounds before the last one, Nr - 1.
  function Cipher<B>(l: Layers<B>, b: B, keys: seq<B>, full: nat): B
    requires full + 1 < |keys|
  {
    l.add(l.sub(EncState(l, b, keys, full)), keys[full + 1])
  }

  // The equivalent inverse cipher (Figure 15), under its own keys.
  function DecState<B>(l: Layers<B>, b: B, keys: seq<B>, i: nat): B
    requires i < |keys|
  {
    if i == 0 then l.add(b, keys[0]) else l.add(l.unmix(l.unsub(DecState(l, b, keys, i - 1))), keys[i])
  }

  function EqInvCipher<B>(l: Layers<B>, b: B, keys: seq<B>, full: nat): B
    requires full + 1 < |keys|
  {
    l.add(l.unsub(DecState(l, b, keys, full)), keys[full + 1])
  }

  // The keys in reverse, unmixed but for both ends.
  ghost predicate Reversed<B>(l: Layers<B>, keys: seq<B>, dkeys: seq<B>, full: nat) {
    && full + 1 < |keys| && full + 1 < |dkeys|
    && dkeys[0] == keys[full + 1] && dkeys[full + 1] == keys[0]
    && forall i, j :: 0 < i && 0 < j && i + j == full + 1 ==> dkeys[i] == l.unmix(keys[j])
  }

  // Decryption meets the states of encryption from the other end.
  lemma {:induction false} MeetInTheMiddle<B(!new)>(l: Layers<B>, b: B, keys: seq<B>, dkeys: seq<B>, full: nat, i: nat, j: nat)
    requires Invertible(l) && Reversed(l, keys, dkeys, full) && i + j == full
    ensures DecState(l, Cipher(l, b, keys, full), dkeys, i) == l.sub(EncState(l, b, keys, j))
    decreases i
  {
    if i > 0 {
      MeetInTheMiddle(l, b, keys, dkeys, full, i - 1, j + 1);
      var e, k := EncState(l, b, keys, j), keys[j + 1];
      assert EncState(l, b, keys, j + 1) == l.add(l.mix(l.sub(e)), k);
      assert dkeys[i] == l.unmix(k);
    }
  }

  lemma InverseCipher<B(!new)>(l: Layers<B>, b: B, keys: seq<B>, dkeys: seq<B>, full: nat)
    requires Invertible(l) && Reversed(l, keys, dkeys, full)
    ensures EqInvCipher(l, Cipher(l, b, keys, full), dkeys, full) == b
  {
    MeetInTheMiddle(l, b, keys, dkeys, full, full, 0);
  }
}
