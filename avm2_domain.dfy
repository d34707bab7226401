/**
 * AVM2 application domains: a chain of domains, each holding the
 * definitions exported by its scripts, the classes defined in it, a link to
 * its parent domain and the byte array used as domain memory.
 */
module Avm2Domain {
  import opened Wrappers

  /** The kinds of AVM2 namespace that the names below can live in. */
  datatype NamespaceKind = Public | PackageInternal | Protected | Private | Explicit | StaticProtected

  datatype Namespace = Namespace(kind: NamespaceKind, uri: string)

  /** A qualified name: one namespace and one local name. */
  datatype QName = QName(ns: Namespace, localName: string)

  /**
   * A multiname: a local name looked up in an ordered set of namespaces.
   * The local name is absent for a runtime multiname whose name part has
   * never been supplied.
   */
  datatype Multiname = Multiname(namespaces: seq<Namespace>, localName: Option<string>)

  /** The multiname that names exactly `q` (the source's `name.into()`). */
  function QNameMultiname(q: QName): (mn: Multiname)
    ensures Matches(mn, q)
    ensures forall other: QName :: Matches(mn, other) ==> other == q
  {
    Multiname([q.ns], Some(q.localName))
  }

  /** `mn` names `q`: same local name, and `q`'s namespace is one of `mn`'s. */
  predicate Matches(mn: Multiname, q: QName)
  {
    mn.localName == Some(q.localName) && q.ns in mn.namespaces
  }

  /**
   * Property-map lookup of a local name under a list of namespaces: the
   * entry stored under the first of `namespaces` that holds `name`.
   */
  function LookupUnder<V>(m: map<QName, V>, namespaces: seq<Namespace>, name: string): (r: Option<(Namespace, V)>)
    ensures r.Some? ==> r.value.0 in namespaces && QName(r.value.0, name) in m && m[QName(r.value.0, name)] == r.value.1
    ensures r.None? <==> forall ns :: ns in namespaces ==> QName(ns, name) !in m
  {
    if namespaces == [] then None
    else if QName(namespaces[0], name) in m then Some((namespaces[0], m[QName(namespaces[0], name)]))
    else LookupUnder(m, namespaces[1..], name)
  }

  /**
   * The entry of one property map that a multiname resolves to, with the
   * qualified name it is stored under; nothing when the multiname has no
   * local name.
   */
  function LookupMultiname<V>(m: map<QName, V>, mn: Multiname): (r: Option<(QName, V)>)
    ensures r.Some? ==> r.value.0 in m && m[r.value.0] == r.value.1 && Matches(mn, r.value.0)
    ensures r.None? <==> forall q :: q in m ==> !Matches(mn, q)
  {
    match mn.localName
    case None => None
    case Some(name) =>
      match LookupUnder(m, mn.namespaces, name)
      case None => None
      case Some((ns, v)) => Some((QName(ns, name), v))
  }

  /** The three namespaces under which a `Vector.<T>` name is recognised. */
  datatype VectorNamespaces = VectorNamespaces(vectorPublic: Namespace, vectorInternal: Namespace, public: Namespace)

  const VectorPrefix: string := "Vector.<"

  /** `name` spells a vector specialisation `Vector.<T>` in one of the three namespaces. */
  predicate IsVectorName(name: QName, nss: VectorNamespaces)
    ensures IsVectorName(name, nss) ==> |name.localName| > |VectorPrefix|
  {
    (name.ns == nss.vectorPublic || name.ns == nss.vectorInternal || name.ns == nss.public) &&
    VectorPrefix <= name.localName &&
    |name.localName| > 0 && name.localName[|name.localName| - 1] == '>'
  }

  /**
   * The name lookup that `Vector.<T>` is rewritten to: the name `Vector`
   * in the public vector namespace, and the type name `T`. Other names are
   * looked up as they are, with no type name.
   */
  function SplitVectorName(name: QName, nss: VectorNamespaces): (r: (QName, Option<string>))
    ensures r.1.Some? <==> IsVectorName(name, nss)
    ensures r.1.Some? ==> r.0 == QName(nss.vectorPublic, "Vector")
    ensures r.1.Some? ==> name.localName == VectorPrefix + r.1.value + ">"
    ensures r.1.None? ==> r.0 == name
  {
    if IsVectorName(name, nss) then
      var local := name.localName;
      assert local[7] == '<';
      var typeName := local[|VectorPrefix|..|local| - 1];
      assert local == VectorPrefix + typeName + ">";
      (QName(nss.vectorPublic, "Vector"), Some(typeName))
    else
      (name, None)
  }

  /** Splitting recovers exactly the type name that `Vector.<T>` was built from. */
  lemma VectorNameRoundTrip(ns: Namespace, typeName: string, nss: VectorNamespaces)
    requires ns == nss.vectorPublic || ns == nss.vectorInternal || ns == nss.public
    ensures SplitVectorName(QName(ns, VectorPrefix + typeName + ">"), nss) == (QName(nss.vectorPublic, "Vector"), Some(typeName))
  {
    var local := VectorPrefix + typeName + ">";
    assert VectorPrefix <= local;
    assert local[|local| - 1] == '>';
    var r := SplitVectorName(QName(ns, local), nss);
    assert VectorPrefix + r.1.value + ">" == VectorPrefix + typeName + ">";
    assert r.1.value == local[|VectorPrefix|..|local| - 1];
  }

  /** A script; only its identity matters here. */
  class Script {
    constructor () { }
  }

  /** A class definition, known to a domain by its qualified name. */
  class Class {
    const name: QName

    constructor (name: QName)
      ensures this.name == name
    {
      this.name := name;
    }
  }

  /** The byte array used as domain memory; only its length is modelled. */
  class ByteArray {
    var length: nat

    constructor ()
      ensures length == 0
    {
      length := 0;
    }

    method SetLength(n: nat)
      modifies this
      ensures length == n
    {
      length := n;
    }
  }

  /** The length given to a domain's default memory. */
  const DefaultDomainMemoryLength: nat := 1024

  /** The errors `FindDefiningScript` can raise. */
  datatype Error =
    | ReferenceError(message: string, code: int)
    | RustError(message: string)

  /** The message of error 1065 for an undefined variable. */
  function UndefinedVariableMessage(name: string): (m: string)
    ensures |m| == |name| + 38
    ensures m[..22] == "Error #1065: Variable " && m[22..|m| - 16] == name && m[|m| - 16..] == " is not defined."
  {
    "Error #1065: Variable " + name + " is not defined."
  }

  /**
   * An application domain. Domain equality is object identity, which is
   * Dafny's `==` on `Domain` references.
   */
  class Domain {
    /** Every exported definition and the script that exported it. */
    var defs: map<QName, Script>
    /** Every class defined in this domain, keyed by its name. */
    var classes: map<QName, Class>
    /** The parent domain; fixed when the domain is created. */
    const parent: Domain?
    /** The byte array used as domain memory. */
    var domainMemory: Option<ByteArray>

    /** The parent, its parent, and so on up to the global domain. */
    ghost const ancestors: seq<Domain>
    /** The number of ancestors; it strictly decreases towards the root. */
    ghost const depth: nat

    /** The parent chain is finite and `ancestors` lists it. */
    ghost predicate Valid()
      decreases depth
    {
      if parent == null then
        ancestors == [] && depth == 0
      else
        depth == parent.depth + 1 && ancestors == [parent] + parent.ancestors && parent.Valid()
    }

    /** The ancestors as a set of objects, for frames. */
    ghost function Ancestry(): set<Domain>
    {
      set d | d in ancestors
    }

    /** This domain followed by its ancestors, nearest first. */
    ghost function Chain(): seq<Domain>
    {
      [this] + ancestors
    }

    /** Every ancestor is valid and lies strictly closer to the root. */
    lemma {:induction false} AncestorsBelow()
      requires Valid()
      ensures forall d :: d in ancestors ==> d.Valid() && d.depth < depth
      ensures this !in ancestors
      decreases depth
    {
      if parent != null {
        parent.AncestorsBelow();
      }
    }

    /** The chain of a child is the child followed by its parent's chain. */
    lemma ChainStep()
      requires Valid() && parent != null
      ensures Chain() == [this] + parent.Chain()
      ensures forall k :: 0 <= k < |parent.Chain()| ==> Chain()[k + 1] == parent.Chain()[k]
      ensures parent in Ancestry() && parent.Ancestry() <= Ancestry()
    {
    }

    /** A domain with no parent and no memory (the player globals domain). */
    constructor Global()
      ensures Valid()
      ensures defs == map[] && classes == map[]
      ensures parent == null && domainMemory == None
    {
      defs := map[];
      classes := map[];
      parent := null;
      domainMemory := None;
      ancestors := [];
      depth := 0;
    }

    /** A movie's domain: a child of `parent`, with default memory installed. */
    constructor Movie(parent: Domain)
      requires parent.Valid()
      ensures Valid()
      ensures defs == map[] && classes == map[]
      ensures this.parent == parent
      ensures domainMemory.Some? && fresh(domainMemory.value)
      ensures domainMemory.value.length == DefaultDomainMemoryLength
    {
      defs := map[];
      classes := map[];
      this.parent := parent;
      domainMemory := None;
      ancestors := [parent] + parent.ancestors;
      depth := parent.depth + 1;
      new;
      InitDefaultDomainMemory();
    }

    /** The parent domain: the next domain of the chain, if there is one. */
    function ParentDomain(): (p: Domain?)
      requires Valid()
      ensures p == null <==> |Chain()| == 1
      ensures p != null ==> p.Valid() && Chain()[1] == p && p.Chain() == Chain()[1..]
    {
      parent
    }

    /** Whether some domain of the chain has exported `name`. */
    function HasDefinition(name: QName): (b: bool)
      requires Valid()
      reads this, Ancestry()
      ensures b <==> exists d :: d in Chain() && name in d.defs
      decreases depth
    {
      if name in defs then true
      else if parent != null then
        ChainStep();
        parent.HasDefinition(name)
      else false
    }

    /**
     * The script that defines `mn`, taken from the nearest domain of the
     * chain whose own definitions resolve `mn` (see `DefiningScriptIsNearest`).
     */
    function GetDefiningScript(mn: Multiname): (r: Option<(QName, Script)>)
      requires Valid()
      reads this, Ancestry()
      ensures r.None? <==> forall d :: d in Chain() ==> LookupMultiname(d.defs, mn).None?
      ensures r.Some? ==> exists d :: d in Chain() && LookupMultiname(d.defs, mn) == r
      decreases depth
    {
      var local := LookupMultiname(defs, mn);
      if local.Some? then local
      else if parent != null then
        ChainStep();
        parent.GetDefiningScript(mn)
      else None
    }

    /**
     * Definitions shadow those of ancestors: the domain at position `k` of
     * the chain resolves `mn` and no nearer one does, so its entry is the
     * answer.
     */
    lemma {:induction false} DefiningScriptIsNearest(mn: Multiname, k: nat)
      requires Valid()
      requires k < |Chain()| && LookupMultiname(Chain()[k].defs, mn).Some?
      requires forall j :: 0 <= j < k ==> LookupMultiname(Chain()[j].defs, mn).None?
      ensures GetDefiningScript(mn) == LookupMultiname(Chain()[k].defs, mn)
      decreases depth
    {
      if k > 0 {
        assert Chain()[0] == this;
        ChainStep();
        forall j | 0 <= j < k - 1
          ensures LookupMultiname(parent.Chain()[j].defs, mn).None?
        {
          assert Chain()[j + 1] == parent.Chain()[j];
        }
        parent.DefiningScriptIsNearest(mn, k - 1);
      }
    }

    /**
     * `HasDefinition` and `GetDefiningScript` agree: a qualified name is
     * defined exactly when it resolves, and it then resolves to itself.
     */
    lemma {:induction false} HasDefinitionIffResolves(name: QName)
      requires Valid()
      ensures HasDefinition(name) <==> GetDefiningScript(QNameMultiname(name)).Some?
      ensures HasDefinition(name) ==> GetDefiningScript(QNameMultiname(name)).value.0 == name
      decreases depth
    {
      var mn := QNameMultiname(name);
      if name in defs {
        assert LookupMultiname(defs, mn).Some?;
      } else {
        assert LookupMultiname(defs, mn).None?;
        if parent != null {
          ChainStep();
          parent.HasDefinitionIffResolves(name);
        }
      }
    }

    /** A multiname without a local name resolves to nothing anywhere in the chain. */
    lemma NoLocalNameResolvesNothing(mn: Multiname)
      requires Valid() && mn.localName.None?
      ensures GetDefiningScript(mn) == None && GetClass(mn) == None
    {
    }

    /** The class `mn` names, taken from the nearest domain that defines it. */
    function GetClass(mn: Multiname): (r: Option<Class>)
      requires Valid()
      reads this, Ancestry()
      ensures r.None? <==> forall d :: d in Chain() ==> LookupMultiname(d.classes, mn).None?
      ensures r.Some? ==>
        exists d :: d in Chain() && LookupMultiname(d.classes, mn).Some? && LookupMultiname(d.classes, mn).value.1 == r.value
      decreases depth
    {
      var local := LookupMultiname(classes, mn);
      if local.Some? then Some(local.value.1)
      else if parent != null then
        ChainStep();
        parent.GetClass(mn)
      else None
    }

    /** Classes shadow those of ancestors, as `DefiningScriptIsNearest` for definitions. */
    lemma {:induction false} ClassIsNearest(mn: Multiname, k: nat)
      requires Valid()
      requires k < |Chain()| && LookupMultiname(Chain()[k].classes, mn).Some?
      requires forall j :: 0 <= j < k ==> LookupMultiname(Chain()[j].classes, mn).None?
      ensures GetClass(mn) == Some(LookupMultiname(Chain()[k].classes, mn).value.1)
      decreases depth
    {
      if k > 0 {
        assert Chain()[0] == this;
        ChainStep();
        forall j | 0 <= j < k - 1
          ensures LookupMultiname(parent.Chain()[j].classes, mn).None?
        {
          assert Chain()[j + 1] == parent.Chain()[j];
        }
        parent.ClassIsNearest(mn, k - 1);
      }
    }

    /** Like `GetDefiningScript`, but an unresolved name is an error. */
    function FindDefiningScript(mn: Multiname): (r: Result<(QName, Script), Error>)
      requires Valid()
      reads this, Ancestry()
      ensures r.Ok? <==> GetDefiningScript(mn).Some?
      ensures r.Ok? ==> GetDefiningScript(mn) == Some(r.value)
      ensures r.Err? && mn.localName.Some? ==>
        r.error == ReferenceError(UndefinedVariableMessage(mn.localName.value), 1065)
      ensures r.Err? && mn.localName.None? ==>
        r.error == RustError("Attempted to resolve uninitiated multiname")
    {
      match GetDefiningScript(mn)
      case Some(found) => Ok(found)
      case None =>
        match mn.localName
        case Some(name) => Err(ReferenceError(UndefinedVariableMessage(name), 1065))
        case None => Err(RustError("Attempted to resolve uninitiated multiname"))
    }

    /**
     * Export `script` as the definition of `name`, unless some domain of
     * the chain already defines `name`: the first export wins.
     */
    method ExportDefinition(name: QName, script: Script)
      requires Valid()
      modifies this
      ensures old(HasDefinition(name)) ==> defs == old(defs)
      ensures !old(HasDefinition(name)) ==> defs == old(defs)[name := script]
      ensures classes == old(classes) && domainMemory == old(domainMemory)
      ensures forall d :: d in ancestors ==> d.defs == old(d.defs) && d.classes == old(d.classes)
      ensures HasDefinition(name)
      ensures old(HasDefinition(name)) ==>
        GetDefiningScript(QNameMultiname(name)) == old(GetDefiningScript(QNameMultiname(name)))
      ensures !old(HasDefinition(name)) ==> GetDefiningScript(QNameMultiname(name)) == Some((name, script))
    {
      AncestorsBelow();
      if HasDefinition(name) {
        return;
      }
      defs := defs[name := script];
    }

    /** Define `cls` in this domain, replacing any class of the same name. */
    method ExportClass(cls: Class)
      requires Valid()
      modifies this
      ensures classes == old(classes)[cls.name := cls]
      ensures defs == old(defs) && domainMemory == old(domainMemory)
      ensures forall d :: d in ancestors ==> d.defs == old(d.defs) && d.classes == old(d.classes)
      ensures GetClass(QNameMultiname(cls.name)) == Some(cls)
    {
      AncestorsBelow();
      classes := classes[cls.name := cls];
    }

    /** The domain memory; every domain in use has one. */
    function DomainMemory(): (m: ByteArray)
      requires domainMemory.Some?
      reads this
      ensures domainMemory == Some(m)
    {
      domainMemory.value
    }

    /** Replace the domain memory. */
    method SetDomainMemory(memory: ByteArray)
      modifies this
      ensures domainMemory == Some(memory)
      ensures defs == old(defs) && classes == old(classes)
    {
      domainMemory := Some(memory);
    }

    /**
     * Install a fresh default memory of 1024 bytes unless the domain
     * already has memory (get-or-insert).
     */
    method InitDefaultDomainMemory()
      modifies this
      ensures defs == old(defs) && classes == old(classes)
      ensures old(domainMemory).Some? ==> domainMemory == old(domainMemory)
      ensures old(domainMemory).None? ==>
        domainMemory.Some? && fresh(domainMemory.value) &&
        domainMemory.value.length == DefaultDomainMemoryLength
    {
      var memory := new ByteArray();
      memory.SetLength(DefaultDomainMemoryLength);
      if domainMemory.None? {
        domainMemory := Some(memory);
      }
    }
  }
  /**
   * Exporting a name twice is exporting it once: the second export, of any
   * script, changes nothing.
   */
  method ExportTwice(d: Domain, name: QName, first: Script, second: Script)
    requires d.Valid()
    modifies d
    ensures old(d.HasDefinition(name)) ==> d.defs == old(d.defs)
    ensures !old(d.HasDefinition(name)) ==> d.defs == old(d.defs)[name := first]
    ensures d.classes == old(d.classes) && d.domainMemory == old(d.domainMemory)
    ensures !old(d.HasDefinition(name)) ==> d.GetDefiningScript(QNameMultiname(name)) == Some((name, first))
  {
    d.ExportDefinition(name, first);
    d.ExportDefinition(name, second);
  }

  /**
   * Installing the default memory twice is installing it once: the second
   * call keeps the memory the first one left.
   */
  method InitTwice(d: Domain) returns (memory: ByteArray)
    modifies d
    ensures d.defs == old(d.defs) && d.classes == old(d.classes)
    ensures d.domainMemory == Some(memory)
    ensures old(d.domainMemory).Some? ==> memory == old(d.domainMemory).value
    ensures old(d.domainMemory).None? ==> fresh(memory) && memory.length == DefaultDomainMemoryLength
  {
    d.InitDefaultDomainMemory();
    memory := d.DomainMemory();
    d.InitDefaultDomainMemory();
  }
}
