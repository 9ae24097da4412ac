/** The SSH keypair registry: generate, import, assign and delete. */
module Keypairs {
  import opened Text
  import Seqs

  datatype Keypair = Keypair(id: string, name: string, fingerprint: string, keyType: string, created: string)

  /** The key id drawn from the clock, `kp-<milliseconds>`. */
  function KeyId(nowMillis: nat): string {
    "kp-" + NatToString(nowMillis)
  }

  /** The fingerprint shown for a new key; `random` is its random part. */
  function Fingerprint(random: string): string {
    "SHA256:" + random + "..."
  }

  /** The creation date: the date part of an ISO timestamp, before the `T`. */
  function DatePart(iso: string): (d: string)
    ensures d <= iso && 'T' !in d
    ensures |d| < |iso| ==> iso[|d|] == 'T'
  {
    BeforeFirst(iso, 'T')
  }

  /** The type label of a generated key: the algorithm, a space, and the key
      size for RSA only (so ED25519 keys keep a trailing space). */
  function GeneratedType(keyType: string, bits: string): (t: string)
    ensures keyType == "RSA" ==> t == "RSA " + bits
    ensures keyType != "RSA" ==> t == keyType + " "
  {
    keyType + " " + (if keyType == "RSA" then bits else "")
  }

  /** Generation: an empty name is a no-op; otherwise one key with that name
      is appended. */
  function Generate(kps: seq<Keypair>, name: string, keyType: string, bits: string,
                    nowMillis: nat, nowIso: string, random: string): (r: seq<Keypair>)
    ensures name == "" ==> r == kps
    ensures name != "" ==>
      && |r| == |kps| + 1
      && r[..|kps|] == kps
      && var k := r[|kps|];
      && k.name == name
      && k.id == KeyId(nowMillis)
      && k.fingerprint == Fingerprint(random)
      && k.keyType == GeneratedType(keyType, bits)
      && k.created == DatePart(nowIso)
  {
    if name == "" then kps
    else kps + [Keypair(KeyId(nowMillis), name, Fingerprint(random), GeneratedType(keyType, bits), DatePart(nowIso))]
  }

  /** Import: needs a name and a public key, else no-op; appends one key of
      type `Imported` (the public key itself is not kept). */
  function Import(kps: seq<Keypair>, name: string, publicKey: string,
                  nowMillis: nat, nowIso: string, random: string): (r: seq<Keypair>)
    ensures name == "" || publicKey == "" ==> r == kps
    ensures name != "" && publicKey != "" ==>
      && |r| == |kps| + 1
      && r[..|kps|] == kps
      && var k := r[|kps|];
      && k.name == name
      && k.id == KeyId(nowMillis)
      && k.fingerprint == Fingerprint(random)
      && k.keyType == "Imported"
      && k.created == DatePart(nowIso)
  {
    if name == "" || publicKey == "" then kps
    else kps + [Keypair(KeyId(nowMillis), name, Fingerprint(random), "Imported", DatePart(nowIso))]
  }

  /** Assignment: confirmed exactly when an instance is selected; it never
      changes the keypair list. */
  function Assign(kps: seq<Keypair>, instanceId: string): (r: (seq<Keypair>, bool))
    ensures r.0 == kps
    ensures r.1 <==> instanceId != ""
  {
    (kps, instanceId != "")
  }

  /** Deletion: exactly the keys with that id go, the rest keep their order. */
  function Delete(kps: seq<Keypair>, id: string): (r: seq<Keypair>)
    ensures forall i :: 0 <= i < |r| ==> r[i].id != id && r[i] in kps
    ensures forall i :: 0 <= i < |kps| && kps[i].id != id ==> kps[i] in r
    ensures Seqs.IsSubsequence(r, kps)
    ensures (forall i :: 0 <= i < |kps| ==> kps[i].id != id) ==> r == kps
    ensures forall k :: multiset(r)[k] == if k.id != id then multiset(kps)[k] else 0
  {
    Seqs.Filter(kps, (k: Keypair) => k.id != id)
  }

  /** Generating a key and deleting it by its id gives back the list, when
      no earlier key has the same clock-drawn id. */
  lemma GenerateThenDelete(kps: seq<Keypair>, name: string, keyType: string, bits: string,
                           nowMillis: nat, nowIso: string, random: string)
    requires name != ""
    requires forall i :: 0 <= i < |kps| ==> kps[i].id != KeyId(nowMillis)
    ensures Delete(Generate(kps, name, keyType, bits, nowMillis, nowIso, random), KeyId(nowMillis)) == kps
  {
    var g := Generate(kps, name, keyType, bits, nowMillis, nowIso, random);
    Seqs.FilterDropsLast(kps, g[|kps|], (k: Keypair) => k.id != KeyId(nowMillis));
    assert g == kps + [g[|kps|]];
  }

  /** Importing a key and deleting it by its id gives back the list, when no
      earlier key has the same clock-drawn id. */
  lemma ImportThenDelete(kps: seq<Keypair>, name: string, publicKey: string,
                         nowMillis: nat, nowIso: string, random: string)
    requires name != "" && publicKey != ""
    requires forall i :: 0 <= i < |kps| ==> kps[i].id != KeyId(nowMillis)
    ensures Delete(Import(kps, name, publicKey, nowMillis, nowIso, random), KeyId(nowMillis)) == kps
  {
    var g := Import(kps, name, publicKey, nowMillis, nowIso, random);
    Seqs.FilterDropsLast(kps, g[|kps|], (k: Keypair) => k.id != KeyId(nowMillis));
    assert g == kps + [g[|kps|]];
  }
}
