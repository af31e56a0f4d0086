/** The JSON Patch of an allowed request: `shield/pkg/shield/utilPatch.go`, with the meaning
    of the emitted operations as section 4.1 of RFC 6902 gives it. */
module Patch {
  import opened Text
  import opened Tree

  datatype PatchOp = Remove(path: string) | Add(path: string, value: Json)

  // ---- gjson.Get: a key with dots is a path ----

  function GetSegs(j: Json, segs: seq<string>): Option<Json> {
    if segs == [] then Some(j)
    else match j
      case Object(m) => if segs[0] in m then GetSegs(m[segs[0]], segs[1..]) else None
      case Array(s) =>
        var i := Atoi(segs[0]);
        if i.Some? && 0 <= i.value < |s| then GetSegs(s[i.value], segs[1..]) else None
      case _ => None
  }

  function Get(j: Json, path: string): Option<Json> { GetSegs(j, Split(path, '.')) }

  predicate Exists(j: Json, path: string) { Get(j, path).Some? }

  // ---- createJSONPatchBytes ----

  function Texts(m: map<string, string>): Json { Object(map k | k in m :: Leaf(Str(m[k]))) }

  /** The string members of an object. */
  function StringMembers(j: Json): map<string, string> {
    if j.Object? then map k | k in j.fields && j.fields[k].Leaf? && j.fields[k].v.Str? :: j.fields[k].v.s else map[]
  }

  /** Old string values, then the new ones whose key is not found as a path. */
  function AddMap(data: Json, values: map<string, string>): map<string, string> {
    StringMembers(data) + map k | k in values && !Exists(data, k) :: values[k]
  }

  function RemoveOps(data: Json, section: string, deleteKeys: seq<string>): seq<PatchOp> {
    if deleteKeys == [] then []
    else
      var last := deleteKeys[|deleteKeys| - 1];
      RemoveOps(data, section, deleteKeys[..|deleteKeys| - 1]) +
      (if Exists(data, last) then [Remove("/metadata/" + section + "/" + last)] else [])
  }

  /** The operations for one of the sections "labels" and "annotations". */
  function SectionSpec(obj: Json, section: string, values: map<string, string>, deleteKeys: seq<string>): seq<PatchOp> {
    var data := Get(obj, "metadata." + section);
    if |values| == 0 then []
    else if data.None? then [Add("/metadata/" + section, Texts(values))]
    else
      var merged := AddMap(data.value, values);
      RemoveOps(data.value, section, deleteKeys) +
      (if |merged| > 0 then [Add("/metadata/" + section, Texts(merged))] else [])
  }

  method SectionOps(obj: Json, section: string, values: map<string, string>, deleteKeys: seq<string>)
    returns (ops: seq<PatchOp>)
    requires |values| > 0
    ensures ops == SectionSpec(obj, section, values, deleteKeys)
  {
    hide Get, Texts, StringMembers;
    var data := Get(obj, "metadata." + section);
    ops := [];
    if data.Some? {
      for i := 0 to |deleteKeys|
        invariant ops == RemoveOps(data.value, section, deleteKeys[..i])
      {
        assert deleteKeys[..i + 1][..i] == deleteKeys[..i];
        if Exists(data.value, deleteKeys[i]) { ops := ops + [Remove("/metadata/" + section + "/" + deleteKeys[i])]; }
      }
      assert deleteKeys[..|deleteKeys|] == deleteKeys;
      var addMap := AddNewValues(data.value, values);
      if |addMap| > 0 { ops := ops + [Add("/metadata/" + section, Texts(addMap))]; }
    } else {
      ops := [Add("/metadata/" + section, Texts(values))];
    }
  }

  method AddNewValues(data: Json, values: map<string, string>) returns (addMap: map<string, string>)
    ensures addMap == AddMap(data, values)
  {
    hide Exists, StringMembers;
    addMap := StringMembers(data);
    var todo := values.Keys;
    while todo != {}
      invariant todo <= values.Keys
      invariant forall k :: k in addMap <==> k in StringMembers(data) || (k in values && k !in todo && !Exists(data, k))
      invariant forall k :: k in addMap ==>
                  addMap[k] == if k in values && k !in todo && !Exists(data, k) then values[k]
                               else StringMembers(data)[k]
      decreases todo
    {
      var key :| key in todo;
      if !Exists(data, key) { addMap := addMap[key := values[key]]; }
      todo := todo - {key};
    }
    assert addMap.Keys == AddMap(data, values).Keys;
  }

  /** The operations for an object without metadata. */
  function Bare(name: string, labels: map<string, string>, annotations: map<string, string>): seq<PatchOp> {
    (if |labels| > 0 then [Add("/metadata/name", Leaf(Str(name))), Add("/metadata/labels", Texts(labels))] else []) +
    (if |annotations| > 0 then [Add("/metadata/annotations", Texts(annotations))] else [])
  }

  method CreateJSONPatch(name: string, obj: Json, labels: map<string, string>, annotations: map<string, string>,
                         deleteKeys: seq<string>)
    returns (patch: seq<PatchOp>)
    ensures Exists(obj, "metadata") ==> patch == Sections(obj, labels, annotations, deleteKeys)
    ensures !Exists(obj, "metadata") ==> patch == Bare(name, labels, annotations)
  {
    hide Get, Exists, Texts, SectionSpec;
    patch := [];
    if |labels| > 0 {
      if Exists(obj, "metadata") {
        patch := SectionOps(obj, "labels", labels, deleteKeys);
      } else {
        patch := [Add("/metadata/name", Leaf(Str(name))), Add("/metadata/labels", Texts(labels))];
      }
    }
    if |annotations| > 0 {
      if Exists(obj, "metadata") {
        var more := SectionOps(obj, "annotations", annotations, deleteKeys);
        patch := patch + more;
      } else {
        patch := patch + [Add("/metadata/annotations", Texts(annotations))];
      }
    }
    EmptySection(obj, "labels", labels, deleteKeys);
    EmptySection(obj, "annotations", annotations, deleteKeys);
  }

  function Sections(obj: Json, labels: map<string, string>, annotations: map<string, string>,
                    deleteKeys: seq<string>): seq<PatchOp> {
    SectionSpec(obj, "labels", labels, deleteKeys) + SectionSpec(obj, "annotations", annotations, deleteKeys)
  }

  // ---- RFC 6902 ----

  /** A JSON Pointer token: "~1" stands for "/", "~0" for "~". */
  function Unescape(t: string): string {
    if t == "" then ""
    else if "~1" <= t then "/" + Unescape(t[2..])
    else if "~0" <= t then "~" + Unescape(t[2..])
    else [t[0]] + Unescape(t[1..])
  }

  function Tokens(pointer: string): seq<string> {
    var parts := Split(pointer, '/');
    seq(|parts| - 1, i requires 0 <= i < |parts| - 1 => Unescape(parts[i + 1]))
  }

  /** Adds or replaces the object member a pointer names; its parent must exist.  No operation
      here addresses an array element. */
  function AddAt(j: Json, tokens: seq<string>, v: Json): Option<Json> {
    if tokens == [] then Some(v)
    else if !j.Object? then None
    else if |tokens| == 1 then Some(Object(j.fields[tokens[0] := v]))
    else if tokens[0] !in j.fields then None
    else
      var inner := AddAt(j.fields[tokens[0]], tokens[1..], v);
      if inner.None? then None else Some(Object(j.fields[tokens[0] := inner.value]))
  }

  function RemoveAt(j: Json, tokens: seq<string>): Option<Json> {
    if tokens == [] || !j.Object? || tokens[0] !in j.fields then None
    else if |tokens| == 1 then Some(Object(j.fields - {tokens[0]}))
    else
      var inner := RemoveAt(j.fields[tokens[0]], tokens[1..]);
      if inner.None? then None else Some(Object(j.fields[tokens[0] := inner.value]))
  }

  function Apply(j: Json, op: PatchOp): Option<Json> {
    match op
    case Remove(path) => RemoveAt(j, Tokens(path))
    case Add(path, v) => AddAt(j, Tokens(path), v)
  }

  /** The operations in order; a failing one fails the patch. */
  function ApplyAll(j: Json, ops: seq<PatchOp>): Option<Json>
    decreases |ops|
  {
    if ops == [] then Some(j)
    else
      var next := Apply(j, ops[0]);
      if next.None? then None else ApplyAll(next.value, ops[1..])
  }

  // ---- What the patch does ----

  predicate HasMetadata(obj: Json) { obj.Object? && "metadata" in obj.fields && obj.fields["metadata"].Object? }

  /** A section that is absent, null, or an object of strings. */
  predicate PlainSection(obj: Json, section: string)
    requires HasMetadata(obj)
  {
    var meta := obj.fields["metadata"].fields;
    section in meta ==> meta[section].Null? || StringObject(meta[section])
  }

  predicate StringObject(j: Json) { j.Object? && forall k :: k in j.fields ==> j.fields[k].Leaf? && j.fields[k].v.Str? }

  function OldValues(obj: Json, section: string): map<string, string>
    requires HasMetadata(obj)
  {
    var meta := obj.fields["metadata"].fields;
    if section in meta then StringMembers(meta[section]) else map[]
  }

  /** The object with one section replaced and everything else as it was. */
  function PutSection(obj: Json, section: string, j: Json): (r: Json)
    requires HasMetadata(obj)
    ensures HasMetadata(r)
  {
    Object(obj.fields["metadata" := Object(obj.fields["metadata"].fields[section := j])])
  }

  function WithSection(obj: Json, section: string, values: map<string, string>): (r: Json)
    requires HasMetadata(obj)
    ensures HasMetadata(r)
  {
    PutSection(obj, section, Texts(values))
  }

  lemma SectionLookup(obj: Json, section: string)
    requires HasMetadata(obj) && '.' !in section
    ensures Exists(obj, "metadata")
    ensures Get(obj, "metadata." + section) ==
            if section in obj.fields["metadata"].fields then Some(obj.fields["metadata"].fields[section]) else None
  {
    hide Split;
    SplitPlain("metadata", '.');
    SplitPlain(section, '.');
    SplitConcat("metadata", '.', section);
    assert "metadata" + ['.'] + section == "metadata." + section;
    var meta := obj.fields["metadata"];
    assert ["metadata", section][1..] == [section] && [section][1..] == [] && ["metadata"][1..] == [];
    assert GetSegs(obj, ["metadata"]) == GetSegs(meta, []);
    assert GetSegs(obj, ["metadata", section]) == GetSegs(meta, [section]);
    if section in meta.fields { assert GetSegs(meta, [section]) == GetSegs(meta.fields[section], []); }
  }

  /** In an object of strings a key with a dot is never found as a path. */
  lemma DottedNotFound(data: Json, key: string)
    requires '.' in key && (data.Null? || StringObject(data))
    ensures !Exists(data, key)
  {
    SplitsAt(key, '.');
    var segs := Split(key, '.');
    if data.Object? && segs[0] in data.fields { assert GetSegs(data.fields[segs[0]], segs[1..]) == None; }
  }

  lemma {:induction false} SplitsAt(key: string, c: char)
    requires c in key
    ensures |Split(key, c)| >= 2
  {
    if key[0] != c { SplitsAt(key[1..], c); }
  }

  predicate Dotted(keys: seq<string>) { forall i :: 0 <= i < |keys| ==> '.' in keys[i] }

  predicate DottedMap(m: map<string, string>) { forall k :: k in m ==> '.' in k }

  /** A key without dots is found exactly when it is a member. */
  lemma UndottedFound(data: Json, key: string)
    requires '.' !in key && (data.Null? || StringObject(data))
    ensures Exists(data, key) <==> data.Object? && key in data.fields
  {
    SplitPlain(key, '.');
    assert [key][1..] == [];
    if data.Object? && key in data.fields { assert GetSegs(data.fields[key], []).Some?; }
  }

  /** An old value that a new one under the same key does not replace. */
  predicate Shadows(obj: Json, section: string, k: string)
    requires HasMetadata(obj)
  {
    '.' !in k && k in OldValues(obj, section)
  }

  /** The new values that get through. */
  function Fresh(obj: Json, section: string, values: map<string, string>): map<string, string>
    requires HasMetadata(obj)
  {
    map k | k in values && !Shadows(obj, section, k) :: values[k]
  }

  lemma FoundExactly(data: Json, k: string)
    requires data.Null? || StringObject(data)
    ensures Exists(data, k) <==> '.' !in k && k in StringMembers(data)
  {
    if '.' in k { DottedNotFound(data, k); } else { UndottedFound(data, k); }
  }

  /** What is added to an existing section. */
  lemma AddedValues(obj: Json, section: string, values: map<string, string>)
    requires HasMetadata(obj) && PlainSection(obj, section) && section in obj.fields["metadata"].fields
    ensures AddMap(obj.fields["metadata"].fields[section], values) ==
            OldValues(obj, section) + Fresh(obj, section, values)
  {
    hide StringMembers, StringObject, Exists;
    var data := obj.fields["metadata"].fields[section];
    forall k ensures Exists(data, k) <==> Shadows(obj, section, k) { FoundExactly(data, k); }
  }

  lemma NothingOld(obj: Json, section: string, values: map<string, string>)
    requires HasMetadata(obj) && section !in obj.fields["metadata"].fields
    ensures OldValues(obj, section) + Fresh(obj, section, values) == values
  {}

  lemma SomethingAdded(obj: Json, section: string, values: map<string, string>)
    requires HasMetadata(obj) && |values| > 0
    ensures |OldValues(obj, section) + Fresh(obj, section, values)| > 0
  {
    hide OldValues;
    var k :| k in values;
    assert k in OldValues(obj, section) + Fresh(obj, section, values);
  }

  predicate PlainToken(t: string) { '/' !in t && '~' !in t }

  lemma {:induction false} UnescapePlain(t: string)
    requires '~' !in t
    ensures Unescape(t) == t
  {
    if t != "" {
      UnescapePlain(t[1..]);
      assert [t[0]] + t[1..] == t;
    }
  }

  lemma SectionTokens(section: string)
    requires PlainToken(section)
    ensures Tokens("/metadata/" + section) == ["metadata", section]
  {
    hide Unescape, Split;
    SplitPlain(section, '/');
    SplitPlain("metadata", '/');
    SplitPlain("", '/');
    SplitConcat("metadata", '/', section);
    SplitConcat("", '/', "metadata" + ['/'] + section);
    assert "" + ['/'] + ("metadata" + ['/'] + section) == "/metadata/" + section;
    assert Split("/metadata/" + section, '/') == ["", "metadata", section];
    UnescapePlain("metadata");
    UnescapePlain(section);
  }

  lemma AddSection(obj: Json, section: string, values: map<string, string>)
    requires HasMetadata(obj) && PlainToken(section)
    ensures Apply(obj, Add("/metadata/" + section, Texts(values))) == Some(WithSection(obj, section, values))
  {
    hide Tokens, Texts;
    SectionTokens(section);
    var meta := obj.fields["metadata"];
    assert ["metadata", section][1..] == [section];
    assert AddAt(meta, [section], Texts(values)) == Some(Object(meta.fields[section := Texts(values)]));
  }

  lemma {:induction false} ApplyAllConcat(j: Json, a: seq<PatchOp>, b: seq<PatchOp>)
    ensures ApplyAll(j, a + b) == if ApplyAll(j, a).None? then None else ApplyAll(ApplyAll(j, a).value, b)
    decreases |a|
  {
    hide Apply;
    if a == [] {
      assert a + b == b;
    } else {
      assert (a + b)[0] == a[0] && (a + b)[1..] == a[1..] + b;
      if Apply(j, a[0]).Some? { ApplyAllConcat(Apply(j, a[0]).value, a[1..], b); }
    }
  }

  lemma ApplyOne(j: Json, op: PatchOp)
    ensures ApplyAll(j, [op]) == Apply(j, op)
  {
    hide Apply;
    if Apply(j, op).Some? {
      assert [op][1..] == [];
      assert ApplyAll(Apply(j, op).value, []) == Apply(j, op);
    }
  }

  // ---- The removals ----

  /** A key, put into a path unescaped, names this below its section. */
  function Pointer(key: string): (r: seq<string>)
    ensures |r| >= 1
  {
    var parts := Split(key, '/');
    seq(|parts|, i requires 0 <= i < |parts| => Unescape(parts[i]))
  }

  lemma RemoveTokens(section: string, key: string)
    requires PlainToken(section)
    ensures Tokens("/metadata/" + section + "/" + key) == ["metadata", section] + Pointer(key)
  {
    hide Unescape, Split;
    SplitPlain(section, '/');
    SplitPlain("metadata", '/');
    SplitPlain("", '/');
    SplitConcat(section, '/', key);
    SplitConcat("metadata", '/', section + ['/'] + key);
    SplitConcat("", '/', "metadata" + ['/'] + (section + ['/'] + key));
    assert "" + ['/'] + ("metadata" + ['/'] + (section + ['/'] + key)) == "/metadata/" + section + "/" + key;
    assert Split("/metadata/" + section + "/" + key, '/') == ["", "metadata", section] + Split(key, '/');
    UnescapePlain("metadata");
    UnescapePlain(section);
  }

  /** The section after removing, in order, the keys that are found in it; None if one of the
      removals fails. */
  function Strip(data: Json, keys: seq<string>): Option<Json> {
    if keys == [] then Some(data)
    else
      var last := keys[|keys| - 1];
      var rest := Strip(data, keys[..|keys| - 1]);
      if rest.None? || !Exists(data, last) then rest else RemoveAt(rest.value, Pointer(last))
  }

  predicate HasSection(o: Json, section: string, data: Json) {
    HasMetadata(o) && section in o.fields["metadata"].fields && o.fields["metadata"].fields[section] == data
  }

  function Placed(o: Json, section: string, j: Option<Json>): Option<Json>
    requires HasMetadata(o)
  {
    if j.None? then None else Some(PutSection(o, section, j.value))
  }

  lemma RemoveInSection(o: Json, section: string, data: Json, rest: seq<string>)
    requires HasSection(o, section, data) && rest != []
    ensures RemoveAt(o, ["metadata", section] + rest) == Placed(o, section, RemoveAt(data, rest))
  {
    var all, meta := ["metadata", section] + rest, o.fields["metadata"];
    assert all[1..] == [section] + rest && ([section] + rest)[1..] == rest;
    assert RemoveAt(meta, [section] + rest) ==
           if RemoveAt(data, rest).None? then None
           else Some(Object(meta.fields[section := RemoveAt(data, rest).value]));
  }

  /** Applying the removals strips the section and touches nothing else. */
  lemma {:induction false} ApplyRemoves(o: Json, section: string, data: Json, keys: seq<string>)
    requires HasSection(o, section, data) && PlainToken(section)
    ensures ApplyAll(o, RemoveOps(data, section, keys)) == Placed(o, section, Strip(data, keys))
  {
    hide Exists, RemoveAt, Tokens, Pointer;
    if keys == [] {
      assert o.fields["metadata"].fields[section := data] == o.fields["metadata"].fields;
      assert PutSection(o, section, data) == o;
    } else {
      var front, last := keys[..|keys| - 1], keys[|keys| - 1];
      ApplyRemoves(o, section, data, front);
      var op := Remove("/metadata/" + section + "/" + last);
      ApplyAllConcat(o, RemoveOps(data, section, front), if Exists(data, last) then [op] else []);
      if Strip(data, front).Some? {
        var d := Strip(data, front).value;
        var mid := PutSection(o, section, d);
        ApplyOne(mid, op);
        RemoveTokens(section, last);
        RemoveInSection(mid, section, d, Pointer(last));
        PutTwice(o, section, d, RemoveAt(d, Pointer(last)));
      }
    }
  }

  lemma PutTwice(o: Json, section: string, d: Json, j: Option<Json>)
    requires HasMetadata(o)
    ensures Placed(PutSection(o, section, d), section, j) == Placed(o, section, j)
  {
    if j.Some? {
      var meta := o.fields["metadata"].fields;
      assert meta[section := d][section := j.value] == meta[section := j.value];
      var x, y := Object(meta[section := d]), Object(meta[section := j.value]);
      assert o.fields["metadata" := x]["metadata" := y] == o.fields["metadata" := y];
    }
  }

  /** The keys among `keys` that the removals address. */
  predicate Addressed(data: Json, key: string) { '.' !in key && key in StringMembers(data) }

  /** One of the removals takes the member `k`: a pointer reads "~0" and "~1" as escapes. */
  predicate Gone(data: Json, keys: seq<string>, k: string) {
    exists j :: 0 <= j < |keys| && Addressed(data, keys[j]) && Unescape(keys[j]) == k
  }

  predicate RemovableAt(data: Json, keys: seq<string>, i: nat)
    requires i < |keys|
  {
    Addressed(data, keys[i]) ==>
      '/' !in keys[i] && Unescape(keys[i]) in StringMembers(data) && !Gone(data, keys[..i], Unescape(keys[i]))
  }

  predicate Removable(data: Json, keys: seq<string>) { forall i :: 0 <= i < |keys| ==> RemovableAt(data, keys, i) }

  lemma RemovableFront(data: Json, keys: seq<string>)
    requires keys != []
    ensures var n := |keys| - 1; Removable(data, keys) <==> Removable(data, keys[..n]) && RemovableAt(data, keys, n)
  {
    hide Addressed, Gone, Unescape;
    var n := |keys| - 1;
    forall i | 0 <= i < n ensures RemovableAt(data, keys[..n], i) <==> RemovableAt(data, keys, i) {
      assert keys[..n][..i] == keys[..i] && keys[..n][i] == keys[i];
    }
  }

  lemma GoneFront(data: Json, keys: seq<string>, k: string)
    requires keys != []
    ensures var n := |keys| - 1;
            Gone(data, keys, k) <==> Gone(data, keys[..n], k) || (Addressed(data, keys[n]) && Unescape(keys[n]) == k)
  {
    hide Addressed, Unescape;
    var n := |keys| - 1;
    assert forall i :: 0 <= i < n ==> keys[..n][i] == keys[i];
  }

  lemma SlashFails(data: Json, key: string)
    requires (data.Null? || StringObject(data)) && '/' in key
    ensures RemoveAt(data, Pointer(key)) == None
  {
    SplitsAt(key, '/');
    var tokens := Pointer(key);
    if data.Object? && tokens[0] in data.fields { assert RemoveAt(data.fields[tokens[0]], tokens[1..]) == None; }
  }

  lemma OneToken(key: string)
    requires '/' !in key
    ensures Pointer(key) == [Unescape(key)]
  {
    hide Split, Unescape;
    SplitPlain(key, '/');
  }

  /** The removals succeed if and only if every key they address is free of slashes, which the
      paths do not escape, names a member also after unescaping, and no earlier one took that
      member; then exactly these members go. */
  lemma {:induction false} StripExactly(data: Json, keys: seq<string>)
    requires data.Null? || StringObject(data)
    ensures Strip(data, keys).Some? <==> Removable(data, keys)
    ensures Strip(data, keys).Some? ==>
              var r := Strip(data, keys).value;
              && (data.Null? ==> r == data)
              && (data.Object? ==>
                    StringObject(r) && forall k :: k in r.fields <==> k in data.fields && !Gone(data, keys, k))
  {
    hide Exists, Pointer, Gone, RemovableAt, Removable, RemoveAt;
    if keys == [] {
      NothingRemoved(data);
    } else {
      var n := |keys| - 1;
      var last := keys[n];
      StripExactly(data, keys[..n]);
      RemovableFront(data, keys);
      FoundExactly(data, last);
      forall k ensures Gone(data, keys, k) <==>
                       Gone(data, keys[..n], k) || (Addressed(data, last) && Unescape(last) == k) {
        GoneFront(data, keys, k);
      }
      if Strip(data, keys[..n]).Some? { StripLast(data, Strip(data, keys[..n]).value, keys); }
    }
  }

  lemma NothingRemoved(data: Json)
    ensures Removable(data, []) && forall k :: !Gone(data, [], k)
  {}

  lemma StripLast(data: Json, d: Json, keys: seq<string>)
    requires (data.Null? || StringObject(data)) && keys != []
    requires var front := keys[..|keys| - 1];
             data.Object? ==>
               StringObject(d) && forall k :: k in d.fields <==> k in data.fields && !Gone(data, front, k)
    ensures var n := |keys| - 1;
            var last := keys[n];
            if !Addressed(data, last) then RemovableAt(data, keys, n)
            else
              var r := RemoveAt(d, Pointer(last));
              && (r.Some? <==> RemovableAt(data, keys, n))
              && (r.Some? ==>
                    StringObject(r.value) && forall k :: k in r.value.fields <==> k in d.fields && k != Unescape(last))
  {
    hide Pointer, Gone, Unescape;
    var last := keys[|keys| - 1];
    if Addressed(data, last) {
      if '/' in last {
        SlashFails(d, last);
      } else {
        OneToken(last);
        assert [Unescape(last)][0] == Unescape(last);
      }
    }
  }

  // ---- One section, both sections ----

  /** The removals of a section, if there are any, succeed. */
  predicate Applicable(obj: Json, section: string, values: map<string, string>, deleteKeys: seq<string>)
    requires HasMetadata(obj)
  {
    var meta := obj.fields["metadata"].fields;
    |values| == 0 || section !in meta || Strip(meta[section], deleteKeys).Some?
  }

  function Put(o: Json, section: string, given: map<string, string>, merged: map<string, string>): (r: Json)
    requires HasMetadata(o)
    ensures HasMetadata(r)
  {
    if |given| == 0 then o else WithSection(o, section, merged)
  }

  function Merged(obj: Json, section: string, values: map<string, string>): map<string, string>
    requires HasMetadata(obj)
  {
    OldValues(obj, section) + Fresh(obj, section, values)
  }

  /** The operations for a section of `obj`, applied to an object with the same section: the old
      values, overridden by the new ones that get through. */
  lemma SectionMeaning(obj: Json, o: Json, section: string, values: map<string, string>, deleteKeys: seq<string>)
    requires HasMetadata(obj) && '.' !in section && PlainToken(section) && PlainSection(obj, section) && HasMetadata(o)
    requires var meta := obj.fields["metadata"].fields; section in meta ==> HasSection(o, section, meta[section])
    ensures ApplyAll(o, SectionSpec(obj, section, values, deleteKeys)) ==
            if Applicable(obj, section, values, deleteKeys)
            then Some(Put(o, section, values, Merged(obj, section, values)))
            else None
  {
    hide Get, Texts, StringObject, Exists, AddMap, Merged, RemoveOps, Strip, Apply, PutSection, OldValues, Fresh;
    hide ApplyAll;
    var meta := obj.fields["metadata"].fields;
    if |values| == 0 {
      ApplyNone(o);
      EmptySection(obj, section, values, deleteKeys);
    } else {
      SectionLookup(obj, section);
      MergedValues(obj, section, values);
      var merged := Merged(obj, section, values);
      var add := Add("/metadata/" + section, Texts(merged));
      if section in meta {
        var removes := RemoveOps(meta[section], section, deleteKeys);
        ApplyRemoves(o, section, meta[section], deleteKeys);
        ApplyAllConcat(o, removes, [add]);
        assert SectionSpec(obj, section, values, deleteKeys) == removes + [add];
        if Strip(meta[section], deleteKeys).Some? {
          var d := Strip(meta[section], deleteKeys).value;
          ApplyOne(PutSection(o, section, d), add);
          AddSection(PutSection(o, section, d), section, merged);
          PutTwice(o, section, d, Some(Texts(merged)));
        }
      } else {
        assert SectionSpec(obj, section, values, deleteKeys) == [add];
        ApplyOne(o, add);
        AddSection(o, section, merged);
      }
    }
  }

  lemma ApplyNone(o: Json)
    ensures ApplyAll(o, []) == Some(o)
  {}

  lemma MergedValues(obj: Json, section: string, values: map<string, string>)
    requires HasMetadata(obj) && PlainSection(obj, section) && |values| > 0
    ensures var meta := obj.fields["metadata"].fields;
            && |Merged(obj, section, values)| > 0
            && (section in meta ==> AddMap(meta[section], values) == Merged(obj, section, values))
            && (section !in meta ==> values == Merged(obj, section, values))
  {
    hide OldValues, Fresh, AddMap, PlainSection;
    SomethingAdded(obj, section, values);
    if section in obj.fields["metadata"].fields {
      AddedValues(obj, section, values);
    } else {
      NothingOld(obj, section, values);
    }
  }

  /** For every object with a metadata object whose labels and annotations are absent, null or
      string-valued: the emitted patch can be applied exactly when its removals can; it then
      yields the old labels overridden by the new ones that get through, likewise the
      annotations, and nothing else changes. */
  lemma PatchMeaning(obj: Json, labels: map<string, string>, annotations: map<string, string>, deleteKeys: seq<string>)
    requires HasMetadata(obj) && PlainSection(obj, "labels") && PlainSection(obj, "annotations")
    ensures ApplyAll(obj, Sections(obj, labels, annotations, deleteKeys)) ==
            if Applicable(obj, "labels", labels, deleteKeys) && Applicable(obj, "annotations", annotations, deleteKeys)
            then Some(Put(Put(obj, "labels", labels, Merged(obj, "labels", labels)),
                          "annotations", annotations, Merged(obj, "annotations", annotations)))
            else None
  {
    hide SectionSpec, Apply, ApplyAll, PlainSection, Texts, Merged, Applicable;
    var first := SectionSpec(obj, "labels", labels, deleteKeys);
    var second := SectionSpec(obj, "annotations", annotations, deleteKeys);
    ApplyAllConcat(obj, first, second);
    SectionMeaning(obj, obj, "labels", labels, deleteKeys);
    var labelled := Put(obj, "labels", labels, Merged(obj, "labels", labels));
    SectionMeaning(obj, labelled, "annotations", annotations, deleteKeys);
  }

  /** Keys with dots are never found, so deleting only such keys always applies. */
  lemma DottedApplicable(obj: Json, section: string, values: map<string, string>, deleteKeys: seq<string>)
    requires HasMetadata(obj) && PlainSection(obj, section) && Dotted(deleteKeys)
    ensures Applicable(obj, section, values, deleteKeys)
  {
    var meta := obj.fields["metadata"].fields;
    if section in meta { DottedStrip(meta[section], deleteKeys); }
  }

  lemma {:induction false} DottedStrip(data: Json, keys: seq<string>)
    requires Dotted(keys) && (data.Null? || StringObject(data))
    ensures Strip(data, keys) == Some(data)
  {
    if keys != [] {
      DottedStrip(data, keys[..|keys| - 1]);
      DottedNotFound(data, keys[|keys| - 1]);
    }
  }

  lemma WithSectionReads(obj: Json, section: string, values: map<string, string>, other: string)
    requires HasMetadata(obj)
    ensures var r := WithSection(obj, section, values);
            OldValues(r, other) == if other == section then values else OldValues(obj, other)
  {
    if other == section { assert StringMembers(Texts(values)) == values; }
  }

  /** No new value differs from an old one under a key without dots. */
  predicate Unshadowed(obj: Json, section: string, values: map<string, string>)
    requires HasMetadata(obj)
  {
    forall k :: k in values && Shadows(obj, section, k) ==> OldValues(obj, section)[k] == values[k]
  }

  lemma DottedUnshadowed(obj: Json, section: string, values: map<string, string>)
    requires HasMetadata(obj) && DottedMap(values)
    ensures Unshadowed(obj, section, values)
  {}

  lemma FreshOverrides(obj: Json, section: string, values: map<string, string>)
    requires HasMetadata(obj)
    ensures OldValues(obj, section) + Fresh(obj, section, values) == OldValues(obj, section) + values <==>
            Unshadowed(obj, section, values)
  {
    hide OldValues;
    var was := OldValues(obj, section);
    if !Unshadowed(obj, section, values) {
      var k :| k in values && Shadows(obj, section, k) && was[k] != values[k];
      assert (was + Fresh(obj, section, values))[k] == was[k];
      assert (was + values)[k] == values[k];
    }
  }

  /** What an object with these new values should look like. */
  function Patched(obj: Json, labels: map<string, string>, annotations: map<string, string>): (r: Json)
    requires HasMetadata(obj)
    ensures HasMetadata(r)
  {
    Put(Put(obj, "labels", labels, OldValues(obj, "labels") + labels), "annotations", annotations,
        OldValues(obj, "annotations") + annotations)
  }

  /** New values really override the old ones if and only if the removals apply and no new value
      meets a different old one under a key without dots: such a key is found as a path, and its
      old value kept. */
  lemma OverridesExactly(obj: Json, labels: map<string, string>, annotations: map<string, string>,
                         deleteKeys: seq<string>)
    requires HasMetadata(obj) && PlainSection(obj, "labels") && PlainSection(obj, "annotations")
    ensures ApplyAll(obj, Sections(obj, labels, annotations, deleteKeys)) ==
            Some(Patched(obj, labels, annotations)) <==>
            && Applicable(obj, "labels", labels, deleteKeys) && Applicable(obj, "annotations", annotations, deleteKeys)
            && Unshadowed(obj, "labels", labels) && Unshadowed(obj, "annotations", annotations)
  {
    hide Sections, ApplyAll, PlainSection, OldValues, WithSection, Fresh, Unshadowed, Applicable;
    PatchMeaning(obj, labels, annotations, deleteKeys);
    FreshOverrides(obj, "labels", labels);
    FreshOverrides(obj, "annotations", annotations);
    NothingShadowed(obj, "labels", labels);
    NothingShadowed(obj, "annotations", annotations);
    SectionsRead(obj, labels, Merged(obj, "labels", labels), annotations, Merged(obj, "annotations", annotations));
    SectionsRead(obj, labels, OldValues(obj, "labels") + labels, annotations,
                 OldValues(obj, "annotations") + annotations);
  }

  function Labelled(key: string, v: string): Json {
    Object(map["metadata" := Object(map["labels" := Object(map[key := Leaf(Str(v))])])])
  }

  lemma LabelledPlain(key: string, v: string)
    ensures var o := Labelled(key, v);
            && HasMetadata(o) && PlainSection(o, "labels") && PlainSection(o, "annotations")
            && OldValues(o, "labels") == map[key := v]
  {
    assert StringMembers(Object(map[key := Leaf(Str(v))])) == map[key := v];
  }

  /** A label under a key without dots keeps its old value. */
  lemma UndottedKeepsOld(v: string, w: string)
    requires v != w
    ensures ApplyAll(Labelled("a", v), Sections(Labelled("a", v), map["a" := w], map[], [])) !=
            Some(Patched(Labelled("a", v), map["a" := w], map[]))
  {
    hide ApplyAll, Sections, Labelled, OldValues, Applicable;
    LabelledPlain("a", v);
    OverridesExactly(Labelled("a", v), map["a" := w], map[], []);
    assert Shadows(Labelled("a", v), "labels", "a");
  }

  /** A removal path with an unescaped slash cannot be applied. */
  lemma SlashKeyFails(v: string, labels: map<string, string>)
    requires |labels| > 0
    ensures ApplyAll(Labelled("a/b", v), Sections(Labelled("a/b", v), labels, map[], ["a/b"])) == None
  {
    hide ApplyAll, Sections, Removable, OldValues;
    LabelledPlain("a/b", v);
    PatchMeaning(Labelled("a/b", v), labels, map[], ["a/b"]);
    var data := Object(map["a/b" := Leaf(Str(v))]);
    StripExactly(data, ["a/b"]);
    SlashNotRemovable(data, v);
  }

  lemma SlashNotRemovable(data: Json, v: string)
    requires data == Object(map["a/b" := Leaf(Str(v))])
    ensures !Removable(data, ["a/b"])
  {
    assert Addressed(data, ["a/b"][0]);
    assert !RemovableAt(data, ["a/b"], 0);
  }

  lemma NothingShadowed(obj: Json, section: string, values: map<string, string>)
    requires HasMetadata(obj)
    ensures |values| == 0 ==> Unshadowed(obj, section, values)
  {}

  /** With dotted keys throughout, the patch always applies and every new value gets through. */
  lemma DottedPatch(obj: Json, labels: map<string, string>, annotations: map<string, string>, deleteKeys: seq<string>)
    requires HasMetadata(obj) && PlainSection(obj, "labels") && PlainSection(obj, "annotations")
    requires Dotted(deleteKeys) && DottedMap(labels) && DottedMap(annotations)
    ensures ApplyAll(obj, Sections(obj, labels, annotations, deleteKeys)) == Some(Patched(obj, labels, annotations))
  {
    hide Sections, ApplyAll, PlainSection, Patched, Dotted, DottedMap, Applicable, Unshadowed;
    OverridesExactly(obj, labels, annotations, deleteKeys);
    DottedApplicable(obj, "labels", labels, deleteKeys);
    DottedApplicable(obj, "annotations", annotations, deleteKeys);
    DottedUnshadowed(obj, "labels", labels);
    DottedUnshadowed(obj, "annotations", annotations);
  }

  /** Both sections can be read back from the patched object. */
  lemma SectionsRead(obj: Json, labels: map<string, string>, a: map<string, string>, annotations: map<string, string>,
                     b: map<string, string>)
    requires HasMetadata(obj)
    ensures var r := Put(Put(obj, "labels", labels, a), "annotations", annotations, b);
            && (|labels| > 0 ==> OldValues(r, "labels") == a)
            && (|annotations| > 0 ==> OldValues(r, "annotations") == b)
  {
    hide WithSection, OldValues;
    WithSectionReads(obj, "labels", a, "labels");
    var labelled := Put(obj, "labels", labels, a);
    WithSectionReads(labelled, "annotations", b, "labels");
    WithSectionReads(labelled, "annotations", b, "annotations");
  }

  lemma PatchedReads(obj: Json, labels: map<string, string>, annotations: map<string, string>)
    requires HasMetadata(obj)
    ensures var r := Patched(obj, labels, annotations);
            && (|labels| > 0 ==> OldValues(r, "labels") == OldValues(obj, "labels") + labels)
            && (|annotations| > 0 ==> OldValues(r, "annotations") == OldValues(obj, "annotations") + annotations)
  {
    hide Put, OldValues;
    SectionsRead(obj, labels, OldValues(obj, "labels") + labels, annotations,
                 OldValues(obj, "annotations") + annotations);
  }

  /** One label under a dotted key, and annotations under such keys. */
  lemma LabelPatch(obj: Json, key: string, mark: string, annotations: map<string, string>, deleteKeys: seq<string>)
    requires HasMetadata(obj) && PlainSection(obj, "labels") && PlainSection(obj, "annotations")
    requires Dotted(deleteKeys) && DottedMap(map[key := mark]) && DottedMap(annotations)
    ensures var patch := Sections(obj, map[key := mark], annotations, deleteKeys);
            && ApplyAll(obj, patch) == Some(Patched(obj, map[key := mark], annotations))
            && OldValues(ApplyAll(obj, patch).value, "labels") == OldValues(obj, "labels")[key := mark]
  {
    hide Sections, ApplyAll, PlainSection, OldValues, Patched, Dotted, DottedMap, HasMetadata;
    DottedPatch(obj, map[key := mark], annotations, deleteKeys);
    PatchedReads(obj, map[key := mark], annotations);
    assert OldValues(obj, "labels") + map[key := mark] == OldValues(obj, "labels")[key := mark];
  }

  lemma EmptySection(obj: Json, section: string, values: map<string, string>, deleteKeys: seq<string>)
    ensures |values| == 0 ==> SectionSpec(obj, section, values, deleteKeys) == []
  {}

  lemma AddBelow(obj: Json, field: string, v: Json)
    requires PlainToken(field) && !HasMetadata(obj)
    ensures Apply(obj, Add("/metadata/" + field, v)) == None
  {
    hide Tokens;
    SectionTokens(field);
    assert ["metadata", field][1..] == [field] && |["metadata", field]| == 2;
    if obj.Object? && "metadata" in obj.fields { assert AddAt(obj.fields["metadata"], [field], v) == None; }
  }

  lemma FirstFails(obj: Json, op: PatchOp, rest: seq<PatchOp>)
    requires Apply(obj, op) == None
    ensures ApplyAll(obj, [op] + rest) == None
  {
    hide Apply;
  }

  /** Without a metadata member the emitted patch, with labels, annotations or both, cannot be
      applied. */
  lemma NoMetadataFails(obj: Json, name: string, labels: map<string, string>, annotations: map<string, string>)
    requires !HasMetadata(obj) && (|labels| > 0 || |annotations| > 0)
    ensures ApplyAll(obj, Bare(name, labels, annotations)) == None
  {
    hide Apply, ApplyAll, Texts, HasMetadata;
    var ops := Bare(name, labels, annotations);
    AddBelow(obj, "name", Leaf(Str(name)));
    AddBelow(obj, "annotations", Texts(annotations));
    assert "/metadata/" + "name" == "/metadata/name" && "/metadata/" + "annotations" == "/metadata/annotations";
    FirstFails(obj, ops[0], ops[1..]);
    assert ops == [ops[0]] + ops[1..];
  }

  lemma NoSection(obj: Json, section: string)
    requires !HasMetadata(obj) && '.' !in section && Atoi(section).None?
    ensures Get(obj, "metadata." + section).None?
  {
    hide Split;
    SplitPlain("metadata", '.');
    SplitPlain(section, '.');
    SplitConcat("metadata", '.', section);
    assert "metadata" + ['.'] + section == "metadata." + section;
    assert ["metadata", section][1..] == [section];
    NoIndices();
    if obj.Object? && "metadata" in obj.fields { assert GetSegs(obj.fields["metadata"], [section]) == None; }
  }

  lemma NoIndices()
    ensures Atoi("metadata").None? && Atoi("labels").None? && Atoi("annotations").None?
  {
    assert "metadata"[0] == 'm' && "labels"[0] == 'l' && "annotations"[0] == 'a';
    assert !AllDigits("metadata") && !AllDigits("labels") && !AllDigits("annotations");
  }

  /** Metadata that is no object has no sections, and nothing can be added to it. */
  lemma BadMetadataFails(obj: Json, labels: map<string, string>, annotations: map<string, string>,
                         deleteKeys: seq<string>)
    requires !HasMetadata(obj) && (|labels| > 0 || |annotations| > 0)
    ensures ApplyAll(obj, Sections(obj, labels, annotations, deleteKeys)) == None
  {
    hide Apply, ApplyAll, Texts, HasMetadata, Get, RemoveOps, AddMap;
    NoIndices();
    NoSection(obj, "labels");
    NoSection(obj, "annotations");
    AddBelow(obj, "labels", Texts(labels));
    AddBelow(obj, "annotations", Texts(annotations));
    var first := SectionSpec(obj, "labels", labels, deleteKeys);
    var second := SectionSpec(obj, "annotations", annotations, deleteKeys);
    if |labels| > 0 {
      FirstFails(obj, first[0], second);
    } else {
      assert first + second == second == [second[0]] + [];
      FirstFails(obj, second[0], []);
    }
  }
}
