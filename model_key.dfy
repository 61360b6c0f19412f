/** Model ids, the file-system-safe keys derived from them, and the Podman
    volume names built on those keys (manage.py). */
module ModelKey {
  import opened Text

  const ModelVolumePrefix: string := "model-"
  const KvVolumePrefix: string := "kv-"

  /** A character `_safe_model_key` keeps as it is. */
  predicate IsKeyChar(c: char) {
    IsAsciiAlnum(c) || c == '-' || c == '_' || c == '.'
  }

  lemma SpaceIsNotKeyChar(c: char)
    ensures IsSpace(c) ==> !IsKeyChar(c)
  {
  }

  /** `_normalize_model_id`: surrounding whitespace is not part of an id. */
  function NormalizeModelId(modelId: string): (r: string)
    ensures |r| <= |modelId|
    ensures exists i, j :: OnlySpaceOutside(modelId, i, j) && r == modelId[i..j]
    ensures r == [] || (!IsSpace(r[0]) && !IsSpace(r[|r| - 1]))
  {
    StripKeepsMiddle(modelId);
    Strip(modelId)
  }

  /** `_safe_model_key`: one character per character of the normalised id;
      safe characters stay where they are and every other one becomes `_`. */
  function SafeModelKey(modelId: string): (r: string)
    ensures |r| == |NormalizeModelId(modelId)|
    ensures forall i :: 0 <= i < |r| ==> IsKeyChar(r[i])
    ensures forall i :: 0 <= i < |r| ==>
              var c := NormalizeModelId(modelId)[i];
              r[i] == if IsKeyChar(c) then c else '_'
  {
    var normalized := NormalizeModelId(modelId);
    seq(|normalized|, i requires 0 <= i < |normalized| =>
      if IsKeyChar(normalized[i]) then normalized[i] else '_')
  }

  /** A key is its own key: it has no whitespace left to strip and no
      character left to replace. */
  lemma SafeModelKeyIdempotent(modelId: string)
    ensures SafeModelKey(SafeModelKey(modelId)) == SafeModelKey(modelId)
  {
    var key := SafeModelKey(modelId);
    if key != [] {
      SpaceIsNotKeyChar(key[0]);
      SpaceIsNotKeyChar(key[|key| - 1]);
    }
    assert NormalizeModelId(key) == key;
  }

  /** Normalising an id before deriving its key changes nothing, so callers
      that pass a normalised id get the same key. */
  lemma SafeModelKeyOfNormalized(modelId: string)
    ensures SafeModelKey(NormalizeModelId(modelId)) == SafeModelKey(modelId)
  {
    var n := NormalizeModelId(modelId);
    assert NormalizeModelId(n) == n;
  }

  /** `_volume_name`: the prefix followed by the id's key. */
  function VolumeName(prefix: string, modelId: string): (r: string)
    ensures |r| == |prefix| + |NormalizeModelId(modelId)|
    ensures r[..|prefix|] == prefix
    ensures forall i :: |prefix| <= i < |r| ==> IsKeyChar(r[i])
  {
    prefix + SafeModelKey(modelId)
  }

  /** The model volume and the KV volume of one id carry the same key and
      differ only in their prefixes. */
  lemma VolumeNamesShareKey(modelId: string)
    ensures VolumeName(ModelVolumePrefix, modelId)[|ModelVolumePrefix|..]
         == VolumeName(KvVolumePrefix, modelId)[|KvVolumePrefix|..]
         == SafeModelKey(modelId)
  {
  }

  /** No model volume name is ever a KV volume name, whatever the two ids. */
  lemma ModelAndKvVolumesDistinct(modelId: string, otherId: string)
    ensures VolumeName(ModelVolumePrefix, modelId) != VolumeName(KvVolumePrefix, otherId)
  {
    var m := VolumeName(ModelVolumePrefix, modelId);
    var k := VolumeName(KvVolumePrefix, otherId);
    assert m[0] == m[..|ModelVolumePrefix|][0] == 'm';
    assert k[0] == k[..|KvVolumePrefix|][0] == 'k';
  }

  /** The key of an id with nothing to strip replaces its unsafe
      characters in place. */
  lemma SafeModelKeyOfTrimmed(modelId: string)
    requires modelId == [] || (!IsSpace(modelId[0]) && !IsSpace(modelId[|modelId| - 1]))
    ensures |SafeModelKey(modelId)| == |modelId|
    ensures forall i :: 0 <= i < |modelId| ==>
              SafeModelKey(modelId)[i] == if IsKeyChar(modelId[i]) then modelId[i] else '_'
  {
    assert NormalizeModelId(modelId) == modelId;
  }

  /** Ids of the same length with nothing to strip share a key when they
      differ only where both hold unsafe characters. */
  lemma KeyIgnoresUnsafeCharacters(a: string, b: string)
    requires a == [] || (!IsSpace(a[0]) && !IsSpace(a[|a| - 1]))
    requires b == [] || (!IsSpace(b[0]) && !IsSpace(b[|b| - 1]))
    requires |a| == |b|
    requires forall i :: 0 <= i < |a| ==> a[i] == b[i] || (!IsKeyChar(a[i]) && !IsKeyChar(b[i]))
    ensures SafeModelKey(a) == SafeModelKey(b)
  {
    SafeModelKeyOfTrimmed(a);
    SafeModelKeyOfTrimmed(b);
  }

  /** Keys are not injective: ids that differ only in unsafe characters share
      a key, and so share their volumes. */
  lemma DistinctIdsCanShareKey()
    ensures SafeModelKey("org/model") == SafeModelKey("org:model")
    ensures "org/model" != "org:model"
  {
    var slash, colon := "org/model", "org:model";
    assert slash[3] != colon[3];
    forall i | 0 <= i < |slash| ensures slash[i] == colon[i] || (!IsKeyChar(slash[i]) && !IsKeyChar(colon[i])) {
    }
    KeyIgnoresUnsafeCharacters(slash, colon);
  }
}
