/** The C# type name the Slice code generator emits for a type reference
    (slicec-cs, type_ref_ext.rs). The naming helpers whose bodies live
    elsewhere in the generator (escape_scoped_identifier,
    scoped_proxy_implementation_name, cs_keyword) are parameters. */
module TypeRefExt {
  import opened Errors

  datatype Primitive =
    | Bool | Int8 | UInt8 | Int16 | UInt16 | Int32 | UInt32 | VarInt32 | VarUInt32
    | Int64 | UInt64 | VarInt62 | VarUInt62 | Float32 | Float64 | String | AnyClass

  datatype TypeContext = DataMember | Incoming | Nested | Outgoing

  /** A type reference: what it refers to, whether it is optional (`T?`),
      and the first argument of its `cs:generic` attribute if it has one.
      For a sequence, fixedSizeNumeric is has_fixed_size_numeric_elements. */
  datatype TypeRef = TypeRef(kind: Kind, isOptional: bool, csGeneric: Option<string>)

  datatype Kind =
    | StructRef(id: string)
    | ClassRef(id: string)
    | EnumRef(id: string)
    | InterfaceRef(id: string)
    | SequenceRef(element: TypeRef, fixedSizeNumeric: bool)
    | DictionaryRef(key: TypeRef, value: TypeRef)
    | PrimitiveRef(primitive: Primitive)

  /** The generator's naming helpers: (identifier, namespace) -> name. */
  datatype Namer = Namer(
    escapeScoped: (string, string) -> string,
    proxyImplementation: (string, string) -> string,
    keyword: Primitive -> string)

  predicate IsCollection(t: TypeRef) {
    t.kind.SequenceRef? || t.kind.DictionaryRef?
  }

  /** is_value_type: enums, structs, interfaces (proxies) and every
      primitive but string and AnyClass. */
  function IsValueType(t: TypeRef): (r: bool)
    ensures r <==> !IsCollection(t) && !t.kind.ClassRef? &&
                   !(t.kind.PrimitiveRef? && t.kind.primitive in {String, AnyClass})
  {
    match t.kind
    case PrimitiveRef(p) => p != String && p != AnyClass
    case EnumRef(_) => true
    case StructRef(_) => true
    case InterfaceRef(_) => true
    case _ => false
  }

  /** A readonly sequence of fixed-size numeric elements maps to
      ReadOnlyMemory when outgoing, optional or not. */
  predicate MapsToReadOnlyMemory(t: TypeRef, context: TypeContext) {
    t.kind.SequenceRef? && context == Outgoing && t.kind.fixedSizeNumeric && t.csGeneric.None?
  }

  /** ignore_optional after the adjustment for ReadOnlyMemory sequences. */
  predicate IgnoresOptional(t: TypeRef, context: TypeContext, ignoreOptional: bool) {
    ignoreOptional || MapsToReadOnlyMemory(t, context)
  }

  const CollectionsGeneric := "global::System.Collections.Generic."

  predicate EndsWith(s: string, ch: char) {
    |s| > 0 && s[|s| - 1] == ch
  }

  /** to_type_string. */
  function ToTypeString(t: TypeRef, namespace: string, context: TypeContext, ignoreOptional: bool,
                        n: Namer): (r: string)
    ensures t.isOptional && !IgnoresOptional(t, context, ignoreOptional) ==> EndsWith(r, '?')
    // a sequence or dictionary name ends with "?" exactly when it is optional and not ignored
    ensures IsCollection(t) ==>
              (EndsWith(r, '?') <==> t.isOptional && !IgnoresOptional(t, context, ignoreOptional))
    decreases t, 1
  {
    var typeStr :=
      match t.kind
      case StructRef(id) => n.escapeScoped(id, namespace)
      case ClassRef(id) => n.escapeScoped(id, namespace)
      case EnumRef(id) => n.escapeScoped(id, namespace)
      case InterfaceRef(id) => n.proxyImplementation(id, namespace)
      case SequenceRef(_, _) => SequenceTypeToString(t, namespace, context, n)
      case DictionaryRef(_, _) => DictionaryTypeToString(t, namespace, context, n)
      case PrimitiveRef(p) => n.keyword(p);
    if t.isOptional && !IgnoresOptional(t, context, ignoreOptional) then typeStr + "?" else typeStr
  }

  /** sequence_type_to_string. */
  function SequenceTypeToString(t: TypeRef, namespace: string, context: TypeContext, n: Namer): (r: string)
    requires t.kind.SequenceRef?
    // the container always closes the name; the array form is used exactly
    // for incoming sequences without cs:generic
    ensures EndsWith(r, '>') || EndsWith(r, ']')
    ensures EndsWith(r, ']') <==> context == Incoming && t.csGeneric.None?
    decreases t, 0
  {
    var element := ToTypeString(t.kind.element, namespace, Nested, false, n);
    match context
    case DataMember => CollectionsGeneric + "IList<" + element + ">"
    case Nested => CollectionsGeneric + "IList<" + element + ">"
    case Incoming =>
      (match t.csGeneric
       case Some(g) =>
         if g == "List" || g == "LinkedList" || g == "Queue" || g == "Stack"
         then CollectionsGeneric + g + "<" + element + ">"
         else g + "<" + element + ">"
       case None => element + "[]")
    case Outgoing =>
      if t.kind.fixedSizeNumeric && t.csGeneric.None?
      then "global::System.ReadOnlyMemory<" + element + ">"
      else CollectionsGeneric + "IEnumerable<" + element + ">"
  }

  /** dictionary_type_to_string. */
  function DictionaryTypeToString(t: TypeRef, namespace: string, context: TypeContext, n: Namer): (r: string)
    requires t.kind.DictionaryRef?
    ensures EndsWith(r, '>')
    decreases t, 0
  {
    var key := ToTypeString(t.kind.key, namespace, Nested, false, n);
    var value := ToTypeString(t.kind.value, namespace, Nested, false, n);
    match context
    case DataMember => CollectionsGeneric + "IDictionary<" + key + ", " + value + ">"
    case Nested => CollectionsGeneric + "IDictionary<" + key + ", " + value + ">"
    case Incoming =>
      (match t.csGeneric
       case Some(g) =>
         var prefix := if g == "SortedDictionary" then CollectionsGeneric else "";
         prefix + g + "<" + key + ", " + value + ">"
       case None => CollectionsGeneric + "Dictionary<" + key + ", " + value + ">")
    case Outgoing =>
      CollectionsGeneric + "IEnumerable<" + CollectionsGeneric + "KeyValuePair<" + key + ", " + value + ">>"
  }

  // ---------------------------------------------------------------------
  // Properties of the mapping
  // ---------------------------------------------------------------------

  /** Optionality only ever appends "?": the optional mapping is the
      non-optional one plus "?" unless optionality is ignored, either by the
      caller or because the type maps to ReadOnlyMemory. */
  lemma OptionalAppendsQuestionMark(t: TypeRef, namespace: string, context: TypeContext, ignoreOptional: bool,
                                    n: Namer)
    ensures ToTypeString(t, namespace, context, ignoreOptional, n) ==
            ToTypeString(t.(isOptional := false), namespace, context, ignoreOptional, n) +
            (if t.isOptional && !IgnoresOptional(t, context, ignoreOptional) then "?" else "")
  {
    if t.kind.SequenceRef? {
      SequenceIgnoresOptionalFlag(t, namespace, context, n);
    } else if t.kind.DictionaryRef? {
      DictionaryIgnoresOptionalFlag(t, namespace, context, n);
    }
  }

  lemma SequenceIgnoresOptionalFlag(t: TypeRef, namespace: string, context: TypeContext, n: Namer)
    requires t.kind.SequenceRef?
    ensures SequenceTypeToString(t, namespace, context, n) ==
            SequenceTypeToString(t.(isOptional := false), namespace, context, n)
  {
  }

  lemma DictionaryIgnoresOptionalFlag(t: TypeRef, namespace: string, context: TypeContext, n: Namer)
    requires t.kind.DictionaryRef?
    ensures DictionaryTypeToString(t, namespace, context, n) ==
            DictionaryTypeToString(t.(isOptional := false), namespace, context, n)
  {
  }

  /** The last character of a sequence or dictionary mapping before any
      "?" is '>' or ']'. */
  lemma CollectionNameEnd(t: TypeRef, namespace: string, context: TypeContext, n: Namer)
    requires IsCollection(t)
    ensures var s := ToTypeString(t.(isOptional := false), namespace, context, false, n);
            EndsWith(s, '>') || EndsWith(s, ']')
  {
  }

  /** For a sequence or a dictionary, the mapping ends with "?" exactly
      when the reference is optional and optionality is not ignored. */
  lemma CollectionQuestionMarkIff(t: TypeRef, namespace: string, context: TypeContext, ignoreOptional: bool,
                                  n: Namer)
    requires IsCollection(t)
    ensures var s := ToTypeString(t, namespace, context, ignoreOptional, n);
            (EndsWith(s, '?') <==> t.isOptional && !IgnoresOptional(t, context, ignoreOptional))
  {
    OptionalAppendsQuestionMark(t, namespace, context, ignoreOptional, n);
    CollectionNameEnd(t, namespace, context, n);
    var t' := t.(isOptional := false);
    assert ToTypeString(t', namespace, context, ignoreOptional, n) == ToTypeString(t', namespace, context, false, n);
  }

  /** An outgoing readonly sequence of fixed-size numeric elements is
      ReadOnlyMemory of its element, whether optional or not. */
  lemma ReadOnlyMemoryMapping(t: TypeRef, namespace: string, ignoreOptional: bool, n: Namer)
    requires MapsToReadOnlyMemory(t, Outgoing)
    ensures ToTypeString(t, namespace, Outgoing, ignoreOptional, n) ==
            "global::System.ReadOnlyMemory<" + ToTypeString(t.kind.element, namespace, Nested, false, n) + ">"
    ensures ToTypeString(t, namespace, Outgoing, ignoreOptional, n) ==
            ToTypeString(t.(isOptional := !t.isOptional), namespace, Outgoing, false, n)
  {
    OptionalAppendsQuestionMark(t, namespace, Outgoing, ignoreOptional, n);
    OptionalAppendsQuestionMark(t.(isOptional := !t.isOptional), namespace, Outgoing, false, n);
  }

  /** Any other outgoing sequence is IEnumerable of its element. */
  lemma OutgoingSequenceMapping(t: TypeRef, namespace: string, n: Namer)
    requires t.kind.SequenceRef? && !MapsToReadOnlyMemory(t, Outgoing)
    ensures ToTypeString(t, namespace, Outgoing, false, n) ==
            CollectionsGeneric + "IEnumerable<" + ToTypeString(t.kind.element, namespace, Nested, false, n) + ">" +
            (if t.isOptional then "?" else "")
  {
  }

  /** Data members and nested types map identically, for every type. */
  lemma DataMemberIsNested(t: TypeRef, namespace: string, ignoreOptional: bool, n: Namer)
    ensures ToTypeString(t, namespace, DataMember, ignoreOptional, n) ==
            ToTypeString(t, namespace, Nested, ignoreOptional, n)
  {
  }

  /** Only sequences and dictionaries depend on the context; in particular
      the name of a value type never does. */
  lemma ContextOnlyAffectsCollections(t: TypeRef, namespace: string, c1: TypeContext, c2: TypeContext,
                                      ignoreOptional: bool, n: Namer)
    requires !IsCollection(t)
    ensures ToTypeString(t, namespace, c1, ignoreOptional, n) == ToTypeString(t, namespace, c2, ignoreOptional, n)
  {
  }

  lemma ValueTypesAreNotCollections(t: TypeRef)
    requires IsValueType(t)
    ensures !IsCollection(t)
    ensures t.kind.PrimitiveRef? ==> t.kind.primitive !in {String, AnyClass}
    ensures !t.kind.ClassRef?
  {
  }

  /** Sequence shapes: the element is always rendered as a nested,
      non-ignored type; the context and cs:generic choose the container. */
  lemma SequenceMapping(t: TypeRef, namespace: string, context: TypeContext, n: Namer)
    requires t.kind.SequenceRef? && !t.isOptional
    ensures var e := ToTypeString(t.kind.element, namespace, Nested, false, n);
            var s := ToTypeString(t, namespace, context, false, n);
            && (context in {DataMember, Nested} ==> s == CollectionsGeneric + "IList<" + e + ">")
            && (context == Incoming && t.csGeneric.None? ==> s == e + "[]")
            && (context == Incoming && t.csGeneric.Some? &&
                t.csGeneric.value in {"List", "LinkedList", "Queue", "Stack"} ==>
                  s == CollectionsGeneric + t.csGeneric.value + "<" + e + ">")
            && (context == Incoming && t.csGeneric.Some? &&
                t.csGeneric.value !in {"List", "LinkedList", "Queue", "Stack"} ==>
                  s == t.csGeneric.value + "<" + e + ">")
  {
    assert ToTypeString(t, namespace, context, false, n) == SequenceTypeToString(t, namespace, context, n);
  }

  /** Dictionary shapes, with key and value rendered as nested types. */
  lemma DictionaryMapping(t: TypeRef, namespace: string, context: TypeContext, n: Namer)
    requires t.kind.DictionaryRef? && !t.isOptional
    ensures var k := ToTypeString(t.kind.key, namespace, Nested, false, n);
            var v := ToTypeString(t.kind.value, namespace, Nested, false, n);
            var s := ToTypeString(t, namespace, context, false, n);
            && (context in {DataMember, Nested} ==> s == CollectionsGeneric + "IDictionary<" + k + ", " + v + ">")
            && (context == Incoming && t.csGeneric.None? ==>
                  s == CollectionsGeneric + "Dictionary<" + k + ", " + v + ">")
            && (context == Incoming && t.csGeneric == Some("SortedDictionary") ==>
                  s == CollectionsGeneric + "SortedDictionary" + "<" + k + ", " + v + ">")
            && (context == Incoming && t.csGeneric.Some? && t.csGeneric.value != "SortedDictionary" ==>
                  s == t.csGeneric.value + "<" + k + ", " + v + ">")
            && (context == Outgoing ==>
                  s == CollectionsGeneric + "IEnumerable<" + CollectionsGeneric + "KeyValuePair<" + k + ", " + v + ">>")
  {
    DictionaryUnfolds(t, namespace, context, n);
    if context == Incoming {
      IncomingDictionaryMapping(t, namespace, n);
    }
  }

  lemma DictionaryUnfolds(t: TypeRef, namespace: string, context: TypeContext, n: Namer)
    requires t.kind.DictionaryRef? && !t.isOptional
    ensures ToTypeString(t, namespace, context, false, n) == DictionaryTypeToString(t, namespace, context, n)
  {
  }

  lemma IncomingDictionaryMapping(t: TypeRef, namespace: string, n: Namer)
    requires t.kind.DictionaryRef?
    ensures var k := ToTypeString(t.kind.key, namespace, Nested, false, n);
            var v := ToTypeString(t.kind.value, namespace, Nested, false, n);
            var d := DictionaryTypeToString(t, namespace, Incoming, n);
            && (t.csGeneric.None? ==> d == CollectionsGeneric + "Dictionary<" + k + ", " + v + ">")
            && (t.csGeneric == Some("SortedDictionary") ==>
                  d == CollectionsGeneric + "SortedDictionary" + "<" + k + ", " + v + ">")
            && (t.csGeneric.Some? && t.csGeneric.value != "SortedDictionary" ==>
                  d == t.csGeneric.value + "<" + k + ", " + v + ">")
  {
    if t.csGeneric.Some? && t.csGeneric.value != "SortedDictionary" {
      assert "" + t.csGeneric.value == t.csGeneric.value;
    }
  }
}
