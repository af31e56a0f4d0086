/** The masks that are built into the code: the one of `utilMutation.go` and the
    `CommonMessageMask` of `signVerifier.go`, both under `shield/pkg/shield`. */
module MaskLists {
  import opened Text
  import opened Keys
  import opened Wildcards
  import opened Mask
  import opened Extract
  import opened Compare

  // ---- Keys without adjacent quotes ----

  predicate AdjacentQuotes(s: string) { exists i :: 0 <= i < |s| - 1 && s[i] == '"' && s[i + 1] == '"' }

  lemma {:induction false} QuotedFieldClean(s: string, acc: string)
    requires !AdjacentQuotes(s) && '"' !in acc
    ensures var r := QuotedField(s, acc);
            r.Some? ==> '"' !in r.value.0 && (r.value.1.Some? ==> !AdjacentQuotes(r.value.1.value))
    decreases |s|
  {
    if s != "" && s[0] != '"' {
      assert forall i :: 0 <= i < |s[1..]| ==> s[1..][i] == s[i + 1];
      QuotedFieldClean(s[1..], acc + [s[0]]);
    } else if |s| > 1 {
      assert s[0] == '"' && s[1] != '"';
      assert forall i :: 0 <= i < |s[2..]| ==> s[2..][i] == s[i + 2];
    }
  }

  lemma {:induction false} CsvClean(s: string)
    requires !AdjacentQuotes(s)
    ensures CsvFields(s).Some? ==> forall i :: 0 <= i < |CsvFields(s).value| ==> '"' !in CsvFields(s).value[i]
    decreases |s|
  {
    if CsvFields(s).Some? {
      assert forall i :: 0 <= i < |s| - 1 ==> s[1..][i] == s[i + 1];
      if s != "" && s[0] == '"' {
        assert !AdjacentQuotes(s[1..]);
        QuotedFieldClean(s[1..], "");
        var f := QuotedField(s[1..], "").value;
        if f.1.Some? { CsvClean(f.1.value); }
      } else if UpToDot(s) != s {
        var k := |UpToDot(s)| + 1;
        assert forall i :: 0 <= i < |s[k..]| ==> s[k..][i] == s[i + k];
        CsvClean(s[k..]);
      }
    }
  }

  lemma {:induction false} QuotedFieldAvoids(s: string, acc: string, c: char)
    requires c !in s && c !in acc
    ensures var r := QuotedField(s, acc);
            r.Some? ==> c !in r.value.0 && (r.value.1.Some? ==> c !in r.value.1.value)
    decreases |s|
  {
    if s != "" && s[0] != '"' {
      QuotedFieldAvoids(s[1..], acc + [s[0]], c);
    } else if |s| > 1 && s[1] == '"' {
      QuotedFieldAvoids(s[2..], acc + ['"'], c);
    }
  }

  lemma {:induction false} CsvAvoids(s: string, c: char)
    requires c !in s
    ensures CsvFields(s).Some? ==> forall i :: 0 <= i < |CsvFields(s).value| ==> c !in CsvFields(s).value[i]
    decreases |s|
  {
    if CsvFields(s).Some? {
      if s != "" && s[0] == '"' {
        QuotedFieldAvoids(s[1..], "", c);
        var f := QuotedField(s[1..], "").value;
        if f.1.Some? { CsvAvoids(f.1.value, c); }
      } else if UpToDot(s) != s {
        CsvAvoids(s[|UpToDot(s)| + 1..], c);
      }
    }
  }

  lemma SegmentsAvoid(key: string, c: char)
    requires c !in key
    ensures forall i :: 0 <= i < |SplitConcatKey(key)| ==> c !in SplitConcatKey(key)[i]
  {
    hide ParseSegments, CsvFields, Split;
    if '"' !in key {
      SplitAvoids(key, '.', c);
      ParseSegmentsAvoid(Split(key, '.'), c);
    } else if CsvFields(key).Some? {
      CsvAvoids(key, c);
      ParseSegmentsAvoid(CsvFields(key).value, c);
    }
  }

  lemma SegmentsClean(key: string)
    requires !AdjacentQuotes(key)
    ensures forall i :: 0 <= i < |SplitConcatKey(key)| ==> '"' !in SplitConcatKey(key)[i]
  {
    hide ParseSegments, CsvFields, Split, AdjacentQuotes;
    if '"' !in key {
      SegmentsAvoid(key, '"');
    } else if CsvFields(key).Some? {
      CsvClean(key);
      ParseSegmentsAvoid(CsvFields(key).value, '"');
    }
  }

  lemma PlainIsNormalKey(x: string)
    requires '"' !in x && '[' !in x
    ensures NormalKey(x)
  {
    PlainIsNormal(x);
    RewriteFixpoint(x);
  }

  lemma {:induction false} JoinAvoids(p: seq<string>, c: char)
    requires c != '.' && forall i :: 0 <= i < |p| ==> c !in p[i]
    ensures c !in Join(p, '.')
  {
    if |p| > 1 { JoinAvoids(p[1..], c); }
  }

  /** A key without brackets and without two quotes in a row is stable; rewritten, it holds
      neither quotes nor "[]". */
  lemma CleanKey(key: string)
    requires !AdjacentQuotes(key) && '[' !in key
    ensures StableKey(key) && '"' !in ParseConcatKey(key) && !Contains(ParseConcatKey(key), "[]")
  {
    hide SplitConcatKey, AdjacentQuotes, NormalKey, Contains;
    SegmentsClean(key);
    SegmentsAvoid(key, '[');
    forall i | 0 <= i < |SplitConcatKey(key)| ensures NormalKey(SplitConcatKey(key)[i]) {
      PlainIsNormalKey(SplitConcatKey(key)[i]);
    }
    JoinNoQuote(SplitConcatKey(key));
    JoinAvoids(SplitConcatKey(key), '[');
    ContainsFirst(ParseConcatKey(key), "[]");
  }

  // ---- The lists ----

  /** An entry: a dotted path and, unless empty, one more segment in quotes. */
  datatype Entry = Entry(path: string, quoted: string) {
    function Key(): string { if quoted == "" then path else path + "\"" + quoted + "\"" }

    predicate Plain() {
      PlainText(path) && PlainText(quoted) && path != "" && (quoted != "" ==> EndsInDot(path))
    }
  }

  predicate EndsInDot(s: string) { s != "" && s[|s| - 1] == '.' }

  predicate PlainText(s: string) { '"' !in s && '[' !in s && '*' !in s }

  function Meta(s: string): string { "metadata." + s }

  function Annotation(s: string): string { Meta("annotations." + s) }

  function Shield(s: string): string { "integrityshield.io/" + s }

  function LastApplied(): string { "kubernetes.io/" + "last-applied-" + "configuration" }

  function Daemonset(): string { "deprecated." + "daemonset." + "template.generation" }

  /** The attributes an update may always change. */
  function MutationEntry(i: nat): Entry
    requires i < 11
  {
    match i
    case 0 => Entry(Shield("resourceIntegrity"), "")
    case 1 => Entry(Annotation("namespace"), "")
    case 2 => Entry(Annotation("kubectl."), LastApplied())
    case 3 => Entry(Annotation(Daemonset()), "")
    case 4 => Entry(Meta("creationTimestamp"), "")
    case 5 => Entry(Meta("uid"), "")
    case 6 => Entry(Meta("generation"), "")
    case 7 => Entry(Meta("managedFields"), "")
    case 8 => Entry(Meta("selfLink"), "")
    case 9 => Entry(Meta("resourceVersion"), "")
    case _ => Entry("status", "")
  }

  function MutationMask(): (r: seq<string>)
    ensures |r| == 11 && forall i :: 0 <= i < 11 ==> r[i] == MutationEntry(i).Key()
  {
    seq(11, i requires 0 <= i < 11 => MutationEntry(i).Key())
  }

  /** What a signed message and the requested object may always differ in: the shield's own marks
      and what the API server writes. */
  function MessageEntry(i: nat): Entry
    requires i < 20
  {
    match i
    case 0 => Entry(Meta("labels."), Shield("resourceIntegrity"))
    case 1 => Entry(Annotation(""), Shield("signedBy"))
    case 2 => Entry(Annotation(""), Shield("lastVerifiedTimestamp"))
    case 3 => Entry(Annotation(""), Shield("resourceSignatureUID"))
    case 4 => Entry(Annotation(""), Shield("signature"))
    case 5 => Entry(Annotation(""), Shield("message"))
    case 6 => Entry(Annotation(""), Shield("certificate"))
    case 7 => Entry(Annotation(""), Shield("signatureType"))
    case 8 => Entry(Annotation(""), Shield("messageScope"))
    case 9 => Entry(Annotation(""), Shield("mutableAttrs"))
    case 10 => Entry(Annotation("namespace"), "")
    case 11 => Entry(Annotation("kubectl."), LastApplied())
    case 12 => Entry(Meta("managedFields"), "")
    case 13 => Entry(Meta("creationTimestamp"), "")
    case 14 => Entry(Meta("generation"), "")
    case 15 => Entry(Annotation(Daemonset()), "")
    case 16 => Entry(Meta("namespace"), "")
    case 17 => Entry(Meta("resourceVersion"), "")
    case 18 => Entry(Meta("selfLink"), "")
    case _ => Entry(Meta("uid"), "")
  }

  function MessageMask(): (r: seq<string>)
    ensures |r| == 20 && forall i :: 0 <= i < 20 ==> r[i] == MessageEntry(i).Key()
  {
    seq(20, i requires 0 <= i < 20 => MessageEntry(i).Key())
  }

  // ---- Both are stable and free of wildcards ----

  lemma QuotedTail(a: string, b: string)
    requires '"' !in a && '"' !in b && b != ""
    ensures !AdjacentQuotes(a + "\"" + b + "\"")
  {
    var s := a + "\"" + b + "\"";
    forall i | 0 <= i < |s| - 1 ensures !(s[i] == '"' && s[i + 1] == '"') {
      assert i < |a| ==> s[i] == a[i];
      assert |a| < i <= |a| + |b| ==> s[i] == b[i - |a| - 1];
      assert i == |a| ==> s[i + 1] == b[0];
    }
  }

  lemma {:induction false} PlainSegments(ks: seq<string>)
    requires forall i :: 0 <= i < |ks| ==> '[' !in ks[i]
    ensures ParseSegments(ks) == ks
  {
    if ks != [] {
      PlainSegments(ks[1..]);
      assert ks == [ks[0]] + ks[1..];
    }
  }

  lemma {:induction false} QuotedFieldEnd(b: string, acc: string)
    requires '"' !in b
    ensures QuotedField(b + "\"", acc) == Some((acc + b, None))
    decreases |b|
  {
    var s := b + "\"";
    if b == "" {
      assert s == "\"" && acc + "" == acc;
    } else {
      QuotedFieldEnd(b[1..], acc + [b[0]]);
      assert s[1..] == b[1..] + "\"" && s[0] == b[0];
      assert acc + [b[0]] + b[1..] == acc + b;
    }
  }

  /** A dotted path followed by one quoted segment splits into the pieces of the path and the
      segment, and joins to the path and the segment without the quotes. */
  lemma {:induction false} CsvQuotedEnd(a: string, b: string)
    requires '"' !in a && '"' !in b && '[' !in a && '[' !in b && (a == "" || EndsInDot(a))
    ensures var r := CsvFields(a + ("\"" + b + "\""));
            r.Some? && Join(r.value, '.') == a + b && forall i :: 0 <= i < |r.value| ==> '[' !in r.value[i]
    decreases |a|
  {
    hide QuotedField, UpToDot, CsvFields;
    var end := "\"" + b + "\"";
    if a == "" {
      QuotedOnly(b);
      assert a + end == end && a + b == b;
    } else {
      UpToDotStops(a, a);
      var field, rest := UpToDot(a), a[|UpToDot(a)| + 1..];
      assert rest == "" || EndsInDot(rest);
      CsvQuotedEnd(rest, b);
      CsvFirst(a, end);
      var tail := CsvFields(rest + end).value;
      assert ([field] + tail)[1..] == tail;
      assert field + "." + (rest + b) == a + b;
    }
  }

  lemma QuotedOnly(b: string)
    requires '"' !in b
    ensures CsvFields("\"" + b + "\"") == Some([b])
  {
    hide QuotedField;
    QuotedFieldEnd(b, "");
    assert ("\"" + b + "\"")[1..] == b + "\"" && "" + b == b;
  }

  lemma CsvStep(s: string)
    requires s != "" && s[0] != '"' && '"' !in UpToDot(s) && UpToDot(s) != s
    ensures var rest := CsvFields(s[|UpToDot(s)| + 1..]);
            rest.Some? ==> CsvFields(s) == Some([UpToDot(s)] + rest.value)
  {
    hide UpToDot;
  }

  lemma CsvFirst(a: string, end: string)
    requires EndsInDot(a) && '"' !in a && UpToDot(a) != a
    ensures var rest := CsvFields(a[|UpToDot(a)| + 1..] + end);
            rest.Some? ==> CsvFields(a + end) == Some([UpToDot(a)] + rest.value)
  {
    hide UpToDot, CsvFields;
    var s, field := a + end, UpToDot(a);
    UpToDotStops(a, s);
    assert s[|field| + 1..] == a[|field| + 1..] + end;
    assert s[0] == a[0] && '"' !in field;
    CsvStep(s);
  }

  /** A path that ends in a dot has its first dot in front of whatever follows. */
  lemma {:induction false} UpToDotStops(a: string, s: string)
    requires EndsInDot(a) && a <= s
    ensures UpToDot(s) == UpToDot(a) != a
  {
    if a[0] != '.' { UpToDotStops(a[1..], s[1..]); }
  }

  /** The rewritten key of an entry is its path followed by its quoted segment. */
  lemma EntryNames(e: Entry)
    requires e.Plain()
    ensures ParseConcatKey(e.Key()) == e.path + e.quoted
  {
    hide CsvFields, ParseSegments;
    if e.quoted == "" {
      PlainIsNormal(e.path);
      assert e.path + "" == e.path;
    } else {
      CsvQuotedEnd(e.path, e.quoted);
      assert e.Key() == e.path + ("\"" + e.quoted + "\"");
      assert '"' in e.Key() by { assert e.Key()[|e.path|] == '"'; }
      PlainSegments(CsvFields(e.Key()).value);
    }
  }

  lemma PlainEntry(e: Entry)
    requires e.Plain()
    ensures !AdjacentQuotes(e.Key()) && '[' !in e.Key() && '*' !in e.Key()
  {
    if e.quoted != "" { QuotedTail(e.path, e.quoted); }
  }

  /** One and the same list, rewritten once or twice, masks every object by one rule. */
  predicate OneRule(keys: seq<string>) {
    && (forall i :: 0 <= i < |keys| ==> StableKey(keys[i]))
    && NoWildcard(Rewritten(keys)) && WellQuoted(keys)
  }

  lemma PlainOneRule(keys: seq<string>)
    requires forall i :: 0 <= i < |keys| ==> !AdjacentQuotes(keys[i]) && '[' !in keys[i]
    ensures OneRule(keys)
  {
    hide StableKey, ParseConcatKey, AdjacentQuotes, Contains;
    forall i | 0 <= i < |keys|
      ensures StableKey(keys[i]) && !Contains(Rewritten(keys)[i], "[]") && '"' !in ParseConcatKey(keys[i])
    {
      CleanKey(keys[i]);
    }
  }

  lemma OneRuleConcat(a: seq<string>, b: seq<string>)
    requires OneRule(a) && OneRule(b)
    ensures OneRule(a + b)
  {
    hide StableKey, ParseConcatKey, Contains;
    forall i | 0 <= i < |a + b|
      ensures StableKey((a + b)[i]) && !Contains(Rewritten(a + b)[i], "[]") && '"' !in ParseConcatKey((a + b)[i])
    {
      if i < |a| {
        assert (a + b)[i] == a[i] && Rewritten(a)[i] == ParseConcatKey(a[i]);
      } else {
        assert (a + b)[i] == b[i - |a|] && Rewritten(b)[i - |a|] == ParseConcatKey(b[i - |a|]);
      }
    }
  }

  lemma RewrittenOneRule(keys: seq<string>)
    requires OneRule(keys)
    ensures OneRule(Rewritten(keys))
  {
    hide ParseConcatKey, Contains, StableKey;
    RewriteTwice(keys);
    RewriteTwice(Rewritten(keys));
  }

  lemma MutationMaskOneRule()
    ensures OneRule(MutationMask())
  {
    hide AdjacentQuotes, OneRule;
    forall i | 0 <= i < 11 ensures !AdjacentQuotes(MutationMask()[i]) && '[' !in MutationMask()[i] {
      MutationEntryPlain(i);
      PlainEntry(MutationEntry(i));
    }
    PlainOneRule(MutationMask());
  }

  lemma Words1()
    ensures PlainText("")
    ensures PlainText("metadata.")
    ensures PlainText("annotations.")
    ensures PlainText("labels.")
  {}

  lemma Words2()
    ensures PlainText("kubectl.")
    ensures PlainText("namespace")
    ensures PlainText("uid")
    ensures PlainText("status")
  {}

  lemma Words3()
    ensures PlainText("integrityshield.io/")
    ensures PlainText("signedBy")
  {}

  lemma Words4()
    ensures PlainText("resourceIntegrity")
    ensures PlainText("message")
    ensures PlainText("signature")
  {}

  lemma Words5()
    ensures PlainText("lastVerifiedTimestamp")
  {}

  lemma Words6()
    ensures PlainText("resourceSignatureUID")
  {}

  lemma Words7()
    ensures PlainText("certificate")
    ensures PlainText("signatureType")
  {}

  lemma Words8()
    ensures PlainText("messageScope")
    ensures PlainText("mutableAttrs")
  {}

  lemma Words9()
    ensures PlainText("managedFields")
    ensures PlainText("selfLink")
    ensures PlainText("generation")
  {}

  lemma Words10()
    ensures PlainText("creationTimestamp")
    ensures PlainText("resourceVersion")
  {}

  lemma Words11()
    ensures PlainText("kubernetes.io/")
    ensures PlainText("last-applied-")
  {}

  lemma Words12()
    ensures PlainText("configuration")
    ensures PlainText("deprecated.")
  {}

  lemma Words13()
    ensures PlainText("daemonset.")
    ensures PlainText("template.generation")
  {}

  /** All words the lists are put together from. */
  lemma Words()
    ensures PlainText("")
    ensures PlainText("metadata.")
    ensures PlainText("annotations.")
    ensures PlainText("labels.")
    ensures PlainText("kubectl.")
    ensures PlainText("namespace")
    ensures PlainText("uid")
    ensures PlainText("status")
    ensures PlainText("integrityshield.io/")
    ensures PlainText("signedBy")
    ensures PlainText("resourceIntegrity")
    ensures PlainText("message")
    ensures PlainText("signature")
    ensures PlainText("lastVerifiedTimestamp")
    ensures PlainText("resourceSignatureUID")
    ensures PlainText("certificate")
    ensures PlainText("signatureType")
    ensures PlainText("messageScope")
    ensures PlainText("mutableAttrs")
    ensures PlainText("managedFields")
    ensures PlainText("selfLink")
    ensures PlainText("generation")
    ensures PlainText("creationTimestamp")
    ensures PlainText("resourceVersion")
    ensures PlainText("kubernetes.io/")
    ensures PlainText("last-applied-")
    ensures PlainText("configuration")
    ensures PlainText("deprecated.")
    ensures PlainText("daemonset.")
    ensures PlainText("template.generation")
  {
    hide PlainText;
    Words1();
    Words2();
    Words3();
    Words4();
    Words5();
    Words6();
    Words7();
    Words8();
    Words9();
    Words10();
    Words11();
    Words12();
    Words13();
  }

  lemma PlainConcat(a: string, b: string)
    requires PlainText(a) && PlainText(b)
    ensures PlainText(a + b)
  {}

  lemma PieceShapes(s: string)
    ensures Meta(s) != "" && Annotation(s) != "" && Shield(s) != ""
    ensures (EndsInDot(s) ==> EndsInDot(Meta(s))) && (s == "" || EndsInDot(s) ==> EndsInDot(Annotation(s)))
  {
    assert "metadata."[0] == 'm' && "integrityshield.io/"[0] == 'i' && "annotations."[11] == '.';
    assert Meta(s)[0] == 'm' && Shield(s)[0] == 'i';
    assert s == "" ==> Annotation(s) == "metadata." + "annotations.";
  }

  /** The pieces the entries are put together from. */
  lemma PlainPieces(s: string)
    requires PlainText(s)
    ensures PlainText(Meta(s)) && PlainText(Annotation(s)) && PlainText(Shield(s))
    ensures PlainText(LastApplied()) && PlainText(Daemonset())
    ensures Meta(s) != "" && Annotation(s) != "" && Shield(s) != ""
    ensures (EndsInDot(s) ==> EndsInDot(Meta(s))) && (s == "" || EndsInDot(s) ==> EndsInDot(Annotation(s)))
  {
    PieceShapes(s);
    hide PlainText, EndsInDot;
    Words();
    PlainConcat("metadata.", s);
    PlainConcat("annotations.", s);
    PlainConcat("metadata.", "annotations." + s);
    PlainConcat("integrityshield.io/", s);
    PlainConcat("kubernetes.io/", "last-applied-");
    PlainConcat("kubernetes.io/" + "last-applied-", "configuration");
    PlainConcat("deprecated.", "daemonset.");
    PlainConcat("deprecated." + "daemonset.", "template.generation");
  }

  lemma MutationEntryPlain(i: nat)
    requires i < 11
    ensures MutationEntry(i).Plain()
  {
    hide PlainText, Meta, Annotation, Shield, LastApplied, Daemonset;
    Words();
    PlainPieces("");
    match i {
      case 0 => PlainPieces("resourceIntegrity");
      case 1 => PlainPieces("namespace");
      case 2 => PlainPieces("kubectl.");
      case 3 => PlainPieces(Daemonset());
      case 4 => PlainPieces("creationTimestamp");
      case 5 => PlainPieces("uid");
      case 6 => PlainPieces("generation");
      case 7 => PlainPieces("managedFields");
      case 8 => PlainPieces("selfLink");
      case 9 => PlainPieces("resourceVersion");
      case _ =>
    }
  }

  lemma MessageMaskOneRule()
    ensures OneRule(MessageMask())
  {
    hide AdjacentQuotes, OneRule, MessageEntry;
    forall i | 0 <= i < 20 ensures !AdjacentQuotes(MessageMask()[i]) && '[' !in MessageMask()[i] {
      MessageEntryPlain(i);
      PlainEntry(MessageEntry(i));
    }
    PlainOneRule(MessageMask());
  }

  lemma MessageEntryPlain(i: nat)
    requires i < 20
    ensures MessageEntry(i).Plain()
  {
    hide PlainText, Meta, Annotation, Shield, LastApplied, Daemonset;
    Words();
    PlainPieces("");
    match i {
      case 0 => PlainPieces("labels."); PlainPieces("resourceIntegrity");
      case 1 => PlainPieces("signedBy");
      case 2 => PlainPieces("lastVerifiedTimestamp");
      case 3 => PlainPieces("resourceSignatureUID");
      case 4 => PlainPieces("signature");
      case 5 => PlainPieces("message");
      case 6 => PlainPieces("certificate");
      case 7 => PlainPieces("signatureType");
      case 8 => PlainPieces("messageScope");
      case 9 => PlainPieces("mutableAttrs");
      case 10 => PlainPieces("namespace");
      case 11 => PlainPieces("kubectl.");
      case 12 => PlainPieces("managedFields");
      case 13 => PlainPieces("creationTimestamp");
      case 14 => PlainPieces("generation");
      case 15 => PlainPieces(Daemonset());
      case 16 => PlainPieces("namespace");
      case 17 => PlainPieces("resourceVersion");
      case 18 => PlainPieces("selfLink");
      case _ => PlainPieces("uid");
    }
  }

  // ---- Which keys they are ----

  /** The keys that mutation checking leaves out, as they read once quotes are gone. */
  function MutationName(i: nat): string
    requires i < 11
  {
    match i
    case 0 => "integrityshield.io/" + "resourceIntegrity"
    case 1 => "metadata.annotations." + "namespace"
    case 2 => "metadata.annotations." + "kubectl." + ("kubernetes.io/" + "last-applied-configuration")
    case 3 => "metadata.annotations." + ("deprecated.daemonset." + "template.generation")
    case 4 => "metadata." + "creationTimestamp"
    case 5 => "metadata." + "uid"
    case 6 => "metadata." + "generation"
    case 7 => "metadata." + "managedFields"
    case 8 => "metadata." + "selfLink"
    case 9 => "metadata." + "resourceVersion"
    case _ => "status"
  }

  /** The keys that signature checking leaves out. */
  function MessageName(i: nat): string
    requires i < 20
  {
    match i
    case 0 => "metadata.labels." + ("integrityshield.io/" + "resourceIntegrity")
    case 1 => "metadata.annotations." + "integrityshield.io/" + "signedBy"
    case 2 => "metadata.annotations." + "integrityshield.io/" + "lastVerifiedTimestamp"
    case 3 => "metadata.annotations." + "integrityshield.io/" + "resourceSignatureUID"
    case 4 => "metadata.annotations." + "integrityshield.io/" + "signature"
    case 5 => "metadata.annotations." + "integrityshield.io/" + "message"
    case 6 => "metadata.annotations." + "integrityshield.io/" + "certificate"
    case 7 => "metadata.annotations." + "integrityshield.io/" + "signatureType"
    case 8 => "metadata.annotations." + "integrityshield.io/" + "messageScope"
    case 9 => "metadata.annotations." + "integrityshield.io/" + "mutableAttrs"
    case 10 => "metadata.annotations." + "namespace"
    case 11 => "metadata.annotations." + "kubectl." + ("kubernetes.io/" + "last-applied-configuration")
    case 12 => "metadata." + "managedFields"
    case 13 => "metadata." + "creationTimestamp"
    case 14 => "metadata." + "generation"
    case 15 => "metadata.annotations." + ("deprecated.daemonset." + "template.generation")
    case 16 => "metadata." + "namespace"
    case 17 => "metadata." + "resourceVersion"
    case 18 => "metadata." + "selfLink"
    case _ => "metadata." + "uid"
  }

  lemma Assoc(a: string, b: string, c: string)
    ensures a + (b + c) == a + b + c
  {}

  lemma AnnotationSpelled(s: string)
    ensures Annotation(s) == "metadata.annotations." + s
  {
    assert "metadata." + "annotations." == "metadata.annotations.";
    Assoc("metadata.", "annotations.", s);
  }

  lemma ShieldAnnotation(s: string)
    ensures Annotation("") + Shield(s) == "metadata.annotations." + "integrityshield.io/" + s
  {
    hide Annotation;
    AnnotationSpelled("");
    NoTail("metadata.annotations.");
    Assoc("metadata.annotations.", "integrityshield.io/", s);
  }

  lemma AppliedSpelled()
    ensures LastApplied() == "kubernetes.io/" + "last-applied-configuration"
  {
    assert "last-applied-" + "configuration" == "last-applied-configuration";
    Assoc("kubernetes.io/", "last-applied-", "configuration");
  }

  lemma DaemonsetSpelled()
    ensures Daemonset() == "deprecated.daemonset." + "template.generation"
  {
    assert "deprecated." + "daemonset." == "deprecated.daemonset.";
  }

  lemma LabelsSpelled()
    ensures Meta("labels.") == "metadata.labels."
  {}

  lemma NoTail(s: string)
    ensures s + "" == s
  {}

  lemma MutationNamed(i: nat)
    requires i < 11
    ensures MutationEntry(i).path + MutationEntry(i).quoted == MutationName(i)
  {
    hide Annotation, LastApplied, Daemonset;
    match i {
      case 0 =>
      case 1 => AnnotationSpelled("namespace");
      case 2 => AnnotationSpelled("kubectl."); AppliedSpelled();
      case 3 => AnnotationSpelled(Daemonset()); DaemonsetSpelled();
      case 4 =>
      case 5 =>
      case 6 =>
      case 7 =>
      case 8 =>
      case 9 =>
      case _ =>
    }
    NoTail(MutationEntry(i).path);
  }

  lemma MessageNamed(i: nat)
    requires i < 20
    ensures MessageEntry(i).path + MessageEntry(i).quoted == MessageName(i)
  {
    hide Annotation, LastApplied, Daemonset;
    match i {
      case 0 => LabelsSpelled();
      case 1 => ShieldAnnotation("signedBy");
      case 2 => ShieldAnnotation("lastVerifiedTimestamp");
      case 3 => ShieldAnnotation("resourceSignatureUID");
      case 4 => ShieldAnnotation("signature");
      case 5 => ShieldAnnotation("message");
      case 6 => ShieldAnnotation("certificate");
      case 7 => ShieldAnnotation("signatureType");
      case 8 => ShieldAnnotation("messageScope");
      case 9 => ShieldAnnotation("mutableAttrs");
      case 10 => AnnotationSpelled("namespace");
      case 11 => AnnotationSpelled("kubectl."); AppliedSpelled();
      case 12 =>
      case 13 =>
      case 14 =>
      case 15 => AnnotationSpelled(Daemonset()); DaemonsetSpelled();
      case 16 =>
      case 17 =>
      case 18 =>
      case _ =>
    }
    NoTail(MessageEntry(i).path);
  }

  /** Mutation checking leaves out exactly the eleven keys. */
  lemma MutationMaskExactly(rx: Regex, k: string)
    ensures Listed(rx, Rewritten(MutationMask()), k) <==> exists i :: 0 <= i < 11 && k == MutationName(i)
  {
    hide MutationName, MutationEntry, ParseConcatKey;
    var keys := Rewritten(MutationMask());
    forall i | 0 <= i < 11 ensures keys[i] == MutationName(i) && keys[i] != "" && '*' !in keys[i] {
      MutationEntryPlain(i);
      EntryNames(MutationEntry(i));
      MutationNamed(i);
    }
    ListedPlain(rx, keys, k);
  }

  /** Signature checking leaves out exactly the twenty keys. */
  lemma MessageMaskExactly(rx: Regex, k: string)
    ensures Listed(rx, Rewritten(MessageMask()), k) <==> exists i :: 0 <= i < 20 && k == MessageName(i)
  {
    hide MessageName, MessageEntry, ParseConcatKey;
    var keys := Rewritten(MessageMask());
    forall i | 0 <= i < 20 ensures keys[i] == MessageName(i) && keys[i] != "" && '*' !in keys[i] {
      MessageEntryPlain(i);
      EntryNames(MessageEntry(i));
      MessageNamed(i);
    }
    ListedPlain(rx, keys, k);
  }
}
