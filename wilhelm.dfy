/** The edit `customize_wilhelm` applies to the decoded glTF document: every
    material is renamed and recoloured, and the top-level `extras` is replaced
    by the Wilhelm branding block. */
module Wilhelm {
  import opened Outcome
  import opened JsonDoc

  const MATERIALS := "materials"
  const NAME := "name"
  const PBR := "pbrMetallicRoughness"
  const BASE_COLOR := "baseColorFactor"
  const METALLIC := "metallicFactor"
  const ROUGHNESS := "roughnessFactor"
  const EMISSIVE := "emissiveFactor"
  const EXTRAS := "extras"

  /** CORAL, the brand colour #e94560 as linear RGBA. */
  const CORAL := JArray([JNumber("0.914"), JNumber("0.271"), JNumber("0.376"), JNumber("1.0")])
  const WILHELM := JString("Wilhelm")
  const METALLIC_VALUE := JNumber("0.1")
  const ROUGHNESS_VALUE := JNumber("0.6")
  const GLOW := JArray([JNumber("0.05"), JNumber("0.02"), JNumber("0.02")])

  const BRANDING := JObject([
    Field("wilhelm", JObject([
      Field("version", JString("1.0")),
      Field("brandColor", JString("#e94560")),
      Field("customized", JBool(true))]))])

  /** The three assignments made on `mat['pbrMetallicRoughness']`. */
  function Recolour(pbr: seq<Field>): (r: seq<Field>)
    ensures Keys(r) == WithKey(WithKey(WithKey(Keys(pbr), BASE_COLOR), METALLIC), ROUGHNESS)
    ensures Lookup(r, BASE_COLOR) == Some(CORAL)
    ensures Lookup(r, METALLIC) == Some(METALLIC_VALUE)
    ensures Lookup(r, ROUGHNESS) == Some(ROUGHNESS_VALUE)
    ensures forall k :: k != BASE_COLOR && k != METALLIC && k != ROUGHNESS ==> Lookup(r, k) == Lookup(pbr, k)
  {
    var coloured := Put(pbr, BASE_COLOR, CORAL);
    var metallic := Put(coloured, METALLIC, METALLIC_VALUE);
    PutKeyOrder(pbr, BASE_COLOR, CORAL);
    PutKeyOrder(coloured, METALLIC, METALLIC_VALUE);
    PutKeyOrder(metallic, ROUGHNESS, ROUGHNESS_VALUE);
    Put(metallic, ROUGHNESS, ROUGHNESS_VALUE)
  }

  /** One turn of the material loop. It fails (a Python TypeError) when the
      material is not an object, or when it has a `pbrMetallicRoughness` entry
      that is not an object. */
  function RebrandMaterial(mat: Json): (r: Option<Json>)
    ensures r.Some? <==> mat.JObject? && (Lookup(mat.fields, PBR).None? || Lookup(mat.fields, PBR).value.JObject?)
    ensures r.Some? ==> r.value.JObject?
    ensures r.Some? ==> Keys(r.value.fields) == WithKey(WithKey(Keys(mat.fields), NAME), EMISSIVE)
    ensures r.Some? ==> Lookup(r.value.fields, NAME) == Some(WILHELM)
    ensures r.Some? ==> Lookup(r.value.fields, EMISSIVE) == Some(GLOW)
    ensures r.Some? ==> (Lookup(r.value.fields, PBR).Some? <==> Lookup(mat.fields, PBR).Some?)
    ensures r.Some? && Lookup(mat.fields, PBR).Some? ==>
      var pbr := Lookup(r.value.fields, PBR).value;
      && pbr == JObject(Recolour(Lookup(mat.fields, PBR).value.fields))
      && pbr.JObject?
      && Lookup(pbr.fields, BASE_COLOR) == Some(CORAL)
      && Lookup(pbr.fields, METALLIC) == Some(METALLIC_VALUE)
      && Lookup(pbr.fields, ROUGHNESS) == Some(ROUGHNESS_VALUE)
      && forall k :: k != BASE_COLOR && k != METALLIC && k != ROUGHNESS ==>
           Lookup(pbr.fields, k) == Lookup(Lookup(mat.fields, PBR).value.fields, k)
    ensures r.Some? ==> forall k :: k != NAME && k != PBR && k != EMISSIVE ==>
      Lookup(r.value.fields, k) == Lookup(mat.fields, k)
  {
    match mat
    case JObject(fields) =>
      var named := Put(fields, NAME, WILHELM);
      PutKeyOrder(fields, NAME, WILHELM);
      (match Lookup(named, PBR)
       case None =>
         PutKeyOrder(named, EMISSIVE, GLOW);
         Some(JObject(Put(named, EMISSIVE, GLOW)))
       case Some(JObject(pbr)) =>
         var withPbr := Put(named, PBR, JObject(Recolour(pbr)));
         PutKeyOrder(named, PBR, JObject(Recolour(pbr)));
         PutKeyOrder(withPbr, EMISSIVE, GLOW);
         Some(JObject(Put(withPbr, EMISSIVE, GLOW)))
       case Some(_) => None)
    case _ => None
  }

  /** The material loop: each material in turn is rebranded in place; the
      first one that cannot be raises, and then nothing is returned. */
  method RebrandMaterials(materials: seq<Json>) returns (r: Option<seq<Json>>)
    ensures r.Some? <==> forall i :: 0 <= i < |materials| ==> RebrandMaterial(materials[i]).Some?
    ensures r.Some? ==> |r.value| == |materials|
    ensures r.Some? ==> forall i :: 0 <= i < |materials| ==> Some(r.value[i]) == RebrandMaterial(materials[i])
  {
    var mats := materials;
    var i := 0;
    while i < |mats|
      invariant 0 <= i <= |mats| == |materials|
      invariant forall j :: 0 <= j < i ==> Some(mats[j]) == RebrandMaterial(materials[j])
      invariant forall j :: i <= j < |mats| ==> mats[j] == materials[j]
    {
      var mat := RebrandMaterial(mats[i]);
      if mat.None? {
        return None;
      }
      mats := mats[i := mat.value];
      i := i + 1;
    }
    return Some(mats);
  }

  /** The list the material loop leaves behind, or None when it raises. */
  function RebrandAll(materials: seq<Json>): (r: Option<seq<Json>>)
    ensures r.Some? <==> forall i :: 0 <= i < |materials| ==> RebrandMaterial(materials[i]).Some?
    ensures r.Some? ==> |r.value| == |materials|
    ensures r.Some? ==> forall i :: 0 <= i < |materials| ==> Some(r.value[i]) == RebrandMaterial(materials[i])
  {
    if forall i :: 0 <= i < |materials| ==> RebrandMaterial(materials[i]).Some?
    then Some(seq(|materials|, i requires 0 <= i < |materials| => RebrandMaterial(materials[i]).value))
    else None
  }

  /** The loop's result, element by element, is `RebrandAll`. */
  lemma RebrandAllAgrees(materials: seq<Json>, done: seq<Json>)
    requires |done| == |materials|
    requires forall i :: 0 <= i < |materials| ==> Some(done[i]) == RebrandMaterial(materials[i])
    ensures RebrandAll(materials) == Some(done)
  {
    forall i | 0 <= i < |materials| ensures RebrandMaterial(materials[i]).Some? {
      assert Some(done[i]) == RebrandMaterial(materials[i]);
    }
    var all := seq(|materials|, i requires 0 <= i < |materials| => RebrandMaterial(materials[i]).value);
    assert all == done;
  }

  /** Whether `for mat in gltf.get('materials', [])` can run to the end:
      a missing entry, an empty dict and an empty string iterate over nothing,
      a list needs every element to be rebrandable, and anything else raises
      (a non-empty dict or string yields strings, which reject item
      assignment; numbers, booleans and null are not iterable). */
  predicate MaterialsIterable(entry: Option<Json>) {
    match entry
    case None => true
    case Some(JArray(mats)) => forall i :: 0 <= i < |mats| ==> RebrandMaterial(mats[i]).Some?
    case Some(v) => v == JObject([]) || v == JString("")
  }

  /** The document after the material loop and the `extras` assignment. */
  function EditedDocument(doc: Json): (r: Result<Json>)
    ensures r.Err? ==> r.error in {NotAnObject, BadMaterials}
    ensures r.Ok? ==> doc.JObject? && r.value.JObject? && Lookup(r.value.fields, EXTRAS) == Some(BRANDING)
  {
    match doc
    case JObject(fields) =>
      (match Lookup(fields, MATERIALS)
       case Some(JArray(mats)) =>
         (match RebrandAll(mats)
          case Some(done) => Ok(JObject(Put(Put(fields, MATERIALS, JArray(done)), EXTRAS, BRANDING)))
          case None => Err(BadMaterials))
       case Some(other) =>
         if other == JObject([]) || other == JString("") then Ok(JObject(Put(fields, EXTRAS, BRANDING)))
         else Err(BadMaterials)
       case None => Ok(JObject(Put(fields, EXTRAS, BRANDING))))
    case _ => Err(NotAnObject)
  }

  /** The edit as the source performs it: the material loop over
      `gltf.get('materials', [])`, then the `extras` assignment. */
  method EditDocument(gltf: Json) returns (r: Result<Json>)
    ensures r == EditedDocument(gltf)
  {
    if !gltf.JObject? {
      return Err(NotAnObject);
    }
    var fields := gltf.fields;
    var materials := Lookup(fields, MATERIALS);
    if materials.Some? && materials.value.JArray? {
      var done := RebrandMaterials(materials.value.items);
      if done.None? {
        return Err(BadMaterials);
      }
      RebrandAllAgrees(materials.value.items, done.value);
      fields := Put(fields, MATERIALS, JArray(done.value));
    } else if materials.Some? && materials.value != JObject([]) && materials.value != JString("") {
      return Err(BadMaterials);
    }
    fields := Put(fields, EXTRAS, BRANDING);
    return Ok(JObject(fields));
  }

  /** The edit fails exactly when the document is not an object or its
      materials cannot be iterated, and only with those two errors. */
  lemma EditedDocumentFails(doc: Json)
    ensures EditedDocument(doc) == Err(NotAnObject) <==> !doc.JObject?
    ensures EditedDocument(doc).Ok? <==> doc.JObject? && MaterialsIterable(Lookup(doc.fields, MATERIALS))
    ensures EditedDocument(doc).Err? ==> EditedDocument(doc).error in {NotAnObject, BadMaterials}
  {
    if doc.JObject? {
      var entry := Lookup(doc.fields, MATERIALS);
      if entry.Some? && entry.value.JArray? {
        var mats := entry.value.items;
        assert RebrandAll(mats).Some? <==> forall i :: 0 <= i < |mats| ==> RebrandMaterial(mats[i]).Some?;
      }
    }
  }

  /** After the edit `extras` is the branding block, `materials` is present
      exactly when it was, and every other top-level entry is left alone; a
      `materials` entry that is not a list comes through unchanged. */
  lemma EditedDocumentTopLevel(doc: Json)
    ensures EditedDocument(doc).Ok? ==> doc.JObject? && EditedDocument(doc).value.JObject?
    ensures EditedDocument(doc).Ok? ==>
      var out := EditedDocument(doc).value.fields;
      && Keys(out) == WithKey(Keys(doc.fields), EXTRAS)
      && Lookup(out, EXTRAS) == Some(BRANDING)
      && (forall k :: k != MATERIALS && k != EXTRAS ==> Lookup(out, k) == Lookup(doc.fields, k))
      && (Lookup(out, MATERIALS).Some? <==> Lookup(doc.fields, MATERIALS).Some?)
      && (Lookup(doc.fields, MATERIALS).Some? && !Lookup(doc.fields, MATERIALS).value.JArray? ==>
            Lookup(out, MATERIALS) == Lookup(doc.fields, MATERIALS))
  {
    if EditedDocument(doc).Err? {
      return;
    }
    var fields := doc.fields;
    var entry := Lookup(fields, MATERIALS);
    if entry.Some? && entry.value.JArray? {
      var done := RebrandAll(entry.value.items).value;
      var withMats := Put(fields, MATERIALS, JArray(done));
      assert EditedDocument(doc).value.fields == Put(withMats, EXTRAS, BRANDING);
      PutKeyOrder(fields, MATERIALS, JArray(done));
      PutKeyOrder(withMats, EXTRAS, BRANDING);
    } else {
      assert EditedDocument(doc).value.fields == Put(fields, EXTRAS, BRANDING);
      PutKeyOrder(fields, EXTRAS, BRANDING);
    }
  }

  /** After the edit the list of materials has the same length, and every
      material is the rebranded original: named Wilhelm, glowing, and with a
      `pbrMetallicRoughness` entry exactly when it had one before. */
  lemma EditedDocumentMaterials(doc: Json)
    requires doc.JObject? && Lookup(doc.fields, MATERIALS).Some? && Lookup(doc.fields, MATERIALS).value.JArray?
    ensures EditedDocument(doc).Ok? ==> EditedDocument(doc).value.JObject?
    ensures EditedDocument(doc).Ok? ==>
      var before := Lookup(doc.fields, MATERIALS).value.items;
      var after := Lookup(EditedDocument(doc).value.fields, MATERIALS);
      && after.Some? && after.value.JArray?
      && |after.value.items| == |before|
      && forall i :: 0 <= i < |before| ==>
           && Some(after.value.items[i]) == RebrandMaterial(before[i])
           && after.value.items[i].JObject?
           && Lookup(after.value.items[i].fields, NAME) == Some(WILHELM)
           && Lookup(after.value.items[i].fields, EMISSIVE) == Some(GLOW)
           && (Lookup(after.value.items[i].fields, PBR).Some? <==> Lookup(before[i].fields, PBR).Some?)
  {
    if EditedDocument(doc).Err? {
      return;
    }
    var fields := doc.fields;
    var mats := Lookup(fields, MATERIALS).value.items;
    var done := RebrandAll(mats).value;
    var withMats := Put(fields, MATERIALS, JArray(done));
    var out := Put(withMats, EXTRAS, BRANDING);
    assert EditedDocument(doc).value.fields == out;
    assert Lookup(out, MATERIALS) == Some(JArray(done));
    forall i | 0 <= i < |mats|
      ensures Some(done[i]) == RebrandMaterial(mats[i])
    {
      assert RebrandMaterial(mats[i]).Some?;
    }
  }

  /** Rebranding a material with unique keys leaves its keys, and those of
      its `pbrMetallicRoughness` entry, unique. */
  lemma RebrandMaterialKeepsKeysUnique(mat: Json)
    requires mat.JObject? && UniqueKeys(mat.fields)
    requires Lookup(mat.fields, PBR).Some? && Lookup(mat.fields, PBR).value.JObject? ==>
      UniqueKeys(Lookup(mat.fields, PBR).value.fields)
    ensures RebrandMaterial(mat).Some? ==>
      && UniqueKeys(RebrandMaterial(mat).value.fields)
      && (Lookup(RebrandMaterial(mat).value.fields, PBR).Some? ==>
            UniqueKeys(Lookup(RebrandMaterial(mat).value.fields, PBR).value.fields))
  {
    var named := Put(mat.fields, NAME, WILHELM);
    PutKeepsKeysUnique(mat.fields, NAME, WILHELM);
    match Lookup(named, PBR)
    case None =>
      var out := Put(named, EMISSIVE, GLOW);
      assert RebrandMaterial(mat) == Some(JObject(out));
      PutKeepsKeysUnique(named, EMISSIVE, GLOW);
    case Some(JObject(pbr)) =>
      var coloured := Put(pbr, BASE_COLOR, CORAL);
      var metallic := Put(coloured, METALLIC, METALLIC_VALUE);
      assert Recolour(pbr) == Put(metallic, ROUGHNESS, ROUGHNESS_VALUE);
      PutKeepsKeysUnique(pbr, BASE_COLOR, CORAL);
      PutKeepsKeysUnique(coloured, METALLIC, METALLIC_VALUE);
      PutKeepsKeysUnique(metallic, ROUGHNESS, ROUGHNESS_VALUE);
      var withPbr := Put(named, PBR, JObject(Recolour(pbr)));
      var out := Put(withPbr, EMISSIVE, GLOW);
      assert RebrandMaterial(mat) == Some(JObject(out));
      assert Lookup(out, PBR) == Some(JObject(Recolour(pbr)));
      PutKeepsKeysUnique(named, PBR, JObject(Recolour(pbr)));
      PutKeepsKeysUnique(withPbr, EMISSIVE, GLOW);
    case Some(_) =>
  }

  /** The edit keeps the document a dict: a document with unique top-level
      keys still has unique top-level keys afterwards. */
  lemma EditedDocumentKeepsKeysUnique(doc: Json)
    requires doc.JObject? && UniqueKeys(doc.fields)
    ensures EditedDocument(doc).Ok? ==> UniqueKeys(EditedDocument(doc).value.fields)
  {
    if EditedDocument(doc).Err? {
      return;
    }
    var fields := doc.fields;
    var entry := Lookup(fields, MATERIALS);
    if entry.Some? && entry.value.JArray? {
      var done := RebrandAll(entry.value.items).value;
      var withMats := Put(fields, MATERIALS, JArray(done));
      assert EditedDocument(doc).value.fields == Put(withMats, EXTRAS, BRANDING);
      PutKeepsKeysUnique(fields, MATERIALS, JArray(done));
      PutKeepsKeysUnique(withMats, EXTRAS, BRANDING);
    } else {
      assert EditedDocument(doc).value.fields == Put(fields, EXTRAS, BRANDING);
      PutKeepsKeysUnique(fields, EXTRAS, BRANDING);
    }
  }
}
