/**
 * The shape-file page of the LCIA method editor (`ShapeFilePage`). It keeps
 * an array of sections, one per imported shape file, and links parameters
 * of the method to shape files through their external source. Files on disk,
 * dialogs and the parameter-name rule are foreign: the file store is the set
 * `files`, an answer to a question is a boolean, the outcome of importing a
 * file is an `ImportOutcome`, and `Parameter.isValidName` is a function
 * argument.
 */
module ShapeFiles {
  import opened Wrappers

  /** The source type that marks a parameter taken from a shape file. */
  const ShapeFileSourceType: string := "SHAPE_FILE"

  datatype Uncertainty = Uniform(min: real, max: real)

  datatype ParameterScope = GlobalScope | ProcessScope | ImpactMethodScope

  /** A parameter of the LCIA method (`org.openlca.core.model.Parameter`). */
  datatype Parameter = Parameter(
    refId: string,
    name: string,
    description: string,
    isInput: bool,
    externalSource: Option<string>,
    sourceType: Option<string>,
    value: real,
    uncertainty: Option<Uncertainty>,
    scope: ParameterScope)

  /** An attribute of a shape file with its range of values. */
  datatype ShapeFileParameter = ShapeFileParameter(name: string, min: real, max: real)

  /**
   * What `ShapeFileUtils.importFile` and `getParameters` do with a chosen
   * file: the import throws, or it stores the file under a name and then
   * reading its parameters throws, or both succeed.
   */
  datatype ImportOutcome =
    | ImportFailed
    | ReadFailed(shapeFile: string)
    | Imported(shapeFile: string, params: seq<ShapeFileParameter>)

  /** How `delete(force)` ends: it returns false or true, or it throws. */
  datatype DeleteResult = Declined | Deleted | Thrown

  /** How `AddParamAction.run` ends. */
  datatype AddResult = NoSelection | AlreadyAdded | NameTaken | InvalidName | Added

  /** An input parameter whose external source is the shape file. */
  predicate LinkedTo(p: Parameter, shapeFile: string)
  {
    p.isInput && p.externalSource == Some(shapeFile)
  }

  /** The names of the input parameters linked to the shape file. */
  ghost function Referenced(ps: seq<Parameter>, shapeFile: string): (r: set<string>)
  {
    set p | p in ps && LinkedTo(p, shapeFile) :: p.name
  }

  /** `exists`: a parameter of that name taken from this shape file is already in the method. */
  ghost predicate AlreadyAddedIn(ps: seq<Parameter>, shapeFile: string, param: ShapeFileParameter)
  {
    exists p :: p in ps && p.name == param.name && p.sourceType == Some(ShapeFileSourceType)
                && p.externalSource == Some(shapeFile)
  }

  /** `otherExists`: a parameter of that name with another (or no) external source is in the method. */
  ghost predicate NameTakenIn(ps: seq<Parameter>, shapeFile: string, param: ShapeFileParameter)
  {
    exists p :: p in ps && p.name == param.name && p.externalSource != Some(shapeFile)
  }

  /** What `removeExternalSourceReferences` does to one parameter. */
  function Unlink(p: Parameter, shapeFile: string): (r: Parameter)
  {
    if LinkedTo(p, shapeFile) then p.(externalSource := None) else p
  }

  /**
   * What `updateExternalSourceReferences` does to one parameter: a linked
   * input parameter is unlinked unless its name is still linked, and takes
   * the mean and a uniform distribution of the new range when there is one.
   */
  function Relink(p: Parameter, shapeFile: string, stillLinked: set<string>,
                  nameToParam: map<string, ShapeFileParameter>): (r: Parameter)
  {
    if !LinkedTo(p, shapeFile) then p
    else if p.name !in stillLinked then p.(externalSource := None)
    else if p.name !in nameToParam then p
    else
      var sp := nameToParam[p.name];
      p.(value := (sp.min + sp.max) / 2.0, uncertainty := Some(Uniform(sp.min, sp.max)))
  }

  /** The parameter `addParam` creates for a shape-file attribute. */
  function NewParameter(shapeFile: string, sp: ShapeFileParameter, refId: string): (r: Parameter)
  {
    Parameter(refId, sp.name, "from shapefile: " + shapeFile, true, Some(shapeFile),
              Some(ShapeFileSourceType), (sp.min + sp.max) / 2.0, Some(Uniform(sp.min, sp.max)),
              ImpactMethodScope)
  }

  /** `removeExternalSourceReferences` over the whole parameter list. */
  function UnlinkAll(ps: seq<Parameter>, shapeFile: string): (r: seq<Parameter>)
  {
    seq(|ps|, i requires 0 <= i < |ps| => Unlink(ps[i], shapeFile))
  }

  /** `updateExternalSourceReferences` over the whole parameter list. */
  function RelinkAll(ps: seq<Parameter>, shapeFile: string, stillLinked: set<string>,
                     nameToParam: map<string, ShapeFileParameter>): (r: seq<Parameter>)
  {
    seq(|ps|, i requires 0 <= i < |ps| => Relink(ps[i], shapeFile, stillLinked, nameToParam))
  }

  /** After unlinking, nothing is linked to the shape file. */
  lemma UnlinkReferences(ps: seq<Parameter>, shapeFile: string)
    ensures Referenced(UnlinkAll(ps, shapeFile), shapeFile) == {}
  {
  }

  /** Unlinking one shape file leaves the links to every other file as they were. */
  lemma UnlinkKeepsOtherLinks(ps: seq<Parameter>, shapeFile: string, other: string)
    requires other != shapeFile
    ensures Referenced(UnlinkAll(ps, shapeFile), other) == Referenced(ps, other)
  {
    var qs := UnlinkAll(ps, shapeFile);
    forall n | n in Referenced(ps, other) ensures n in Referenced(qs, other) {
      var p :| p in ps && LinkedTo(p, other) && p.name == n;
      var i :| 0 <= i < |ps| && ps[i] == p;
      assert qs[i] == p;
    }
  }

  /**
   * After the update, the names linked to the shape file are those that were
   * linked and are still linked.
   */
  lemma RelinkReferences(ps: seq<Parameter>, shapeFile: string, stillLinked: set<string>,
                         nameToParam: map<string, ShapeFileParameter>)
    ensures Referenced(RelinkAll(ps, shapeFile, stillLinked, nameToParam), shapeFile)
         == Referenced(ps, shapeFile) * stillLinked
  {
    var qs := RelinkAll(ps, shapeFile, stillLinked, nameToParam);
    forall n | n in Referenced(ps, shapeFile) * stillLinked ensures n in Referenced(qs, shapeFile) {
      var p :| p in ps && LinkedTo(p, shapeFile) && p.name == n;
      var i :| 0 <= i < |ps| && ps[i] == p;
      assert qs[i].name == n && LinkedTo(qs[i], shapeFile);
    }
    forall n | n in Referenced(qs, shapeFile) ensures n in Referenced(ps, shapeFile) * stillLinked {
      var q :| q in qs && LinkedTo(q, shapeFile) && q.name == n;
      var i :| 0 <= i < |qs| && qs[i] == q;
      assert ps[i].name == n && LinkedTo(ps[i], shapeFile);
    }
  }

  /** The update of one shape file's links leaves the links to every other file as they were. */
  lemma RelinkKeepsOtherLinks(ps: seq<Parameter>, shapeFile: string, stillLinked: set<string>,
                              nameToParam: map<string, ShapeFileParameter>, other: string)
    requires other != shapeFile
    ensures Referenced(RelinkAll(ps, shapeFile, stillLinked, nameToParam), other) == Referenced(ps, other)
  {
    var qs := RelinkAll(ps, shapeFile, stillLinked, nameToParam);
    forall n | n in Referenced(ps, other) ensures n in Referenced(qs, other) {
      var p :| p in ps && LinkedTo(p, other) && p.name == n;
      var i :| 0 <= i < |ps| && ps[i] == p;
      assert qs[i] == p;
    }
    forall n | n in Referenced(qs, other) ensures n in Referenced(ps, other) {
      var q :| q in qs && LinkedTo(q, other) && q.name == n;
      var i :| 0 <= i < |qs| && qs[i] == q;
      assert ps[i] == q;
    }
  }

  /**
   * The update as the Update action calls it: `stillLinked` starts from the
   * names currently linked, so the update never unlinks anything.
   */
  lemma UpdateNeverUnlinks(ps: seq<Parameter>, shapeFile: string, stillLinked: set<string>,
                           nameToParam: map<string, ShapeFileParameter>)
    requires Referenced(ps, shapeFile) <= stillLinked
    ensures Referenced(RelinkAll(ps, shapeFile, stillLinked, nameToParam), shapeFile) == Referenced(ps, shapeFile)
  {
    RelinkReferences(ps, shapeFile, stillLinked, nameToParam);
  }

  /** The entries of `s` without the one at position `k`: the two `arraycopy` calls of `delete`. */
  function RemoveAt<T>(s: seq<T>, k: nat): (r: seq<T>)
    requires k < |s|
  {
    s[..k] + s[k + 1..]
  }

  /** In a sequence without duplicates, removing position `k` removes exactly `s[k]`. */
  lemma RemoveAtMembers<T>(s: seq<T>, k: nat)
    requires k < |s|
    requires forall i, j :: 0 <= i < j < |s| ==> s[i] != s[j]
    ensures |RemoveAt(s, k)| == |s| - 1
    ensures forall x :: x in RemoveAt(s, k) <==> x in s && x != s[k]
  {
    forall x | x in s && x != s[k] ensures x in RemoveAt(s, k) {
      var i :| 0 <= i < |s| && s[i] == x;
      if i < k { assert RemoveAt(s, k)[i] == x; } else { assert RemoveAt(s, k)[i - 1] == x; }
    }
    forall x | x in RemoveAt(s, k) ensures x in s && x != s[k] {
      var i :| 0 <= i < |RemoveAt(s, k)| && RemoveAt(s, k)[i] == x;
      if i < k { assert s[i] == x; } else { assert s[i + 1] == x; }
    }
  }

  /** The names of a list of shape-file attributes. */
  ghost function NamesOf(params: seq<ShapeFileParameter>): (r: set<string>)
  {
    set sp | sp in params :: sp.name
  }

  /**
   * The map the Update action fills: every attribute whose name is in
   * `linked`, put in list order, so that a later attribute of the same name
   * replaces an earlier one, as `HashMap.put` does.
   */
  function NameToParam(params: seq<ShapeFileParameter>, linked: set<string>): (r: map<string, ShapeFileParameter>)
    ensures forall n :: n in r ==> n in linked && r[n].name == n && r[n] in params
  {
    if params == [] then map[]
    else
      var last := params[|params| - 1];
      var m := NameToParam(params[..|params| - 1], linked);
      if last.name in linked then m[last.name := last] else m
  }

  /**
   * The map holds exactly the linked names among the attributes, and each
   * maps to the last attribute of that name.
   */
  lemma {:induction false} NameToParamEntries(params: seq<ShapeFileParameter>, linked: set<string>)
    ensures forall n :: n in NameToParam(params, linked) <==> n in linked && n in NamesOf(params)
    ensures forall n :: n in NameToParam(params, linked) ==>
              exists k :: 0 <= k < |params| && params[k] == NameToParam(params, linked)[n]
                          && params[k].name == n && forall j :: k < j < |params| ==> params[j].name != n
  {
    if params != [] {
      var init, last := params[..|params| - 1], params[|params| - 1];
      assert params == init + [last];
      assert forall sp :: sp in params <==> sp in init || sp == last;
      NameToParamEntries(init, linked);
      var m, r := NameToParam(init, linked), NameToParam(params, linked);
      forall n | n in r
        ensures exists k :: 0 <= k < |params| && params[k] == r[n] && params[k].name == n
                            && forall j :: k < j < |params| ==> params[j].name != n
      {
        if n == last.name && last.name in linked {
          assert params[|params| - 1] == r[n];
        } else {
          assert n in m && r[n] == m[n];
          var k :| 0 <= k < |init| && init[k] == m[n] && init[k].name == n
                   && forall j :: k < j < |init| ==> init[j].name != n;
          assert params[k] == r[n];
          forall j | k < j < |params| ensures params[j].name != n {
            if j < |init| { assert params[j] == init[j]; }
          }
        }
      }
    }
  }

  /**
   * `checkRunImport` adds a section: the file is valid and not stored yet,
   * the import and the reading of its attributes succeed, and every
   * attribute has a valid parameter name.
   */
  ghost predicate ImportAccepted(valid: bool, alreadyExists: bool, outcome: ImportOutcome, isValidName: string -> bool)
  {
    valid && !alreadyExists && outcome.Imported? && forall p :: p in outcome.params ==> isValidName(p.name)
  }

  /** The stored shape files after `checkRunImport`. */
  ghost function FilesAfterImport(files: set<string>, valid: bool, alreadyExists: bool, outcome: ImportOutcome,
                                  isValidName: string -> bool): (r: set<string>)
  {
    if !valid || alreadyExists then files
    else match outcome
      case ImportFailed => files
      case ReadFailed(shapeFile) => files + {shapeFile}
      case Imported(shapeFile, params) =>
        if forall p :: p in params ==> isValidName(p.name) then files + {shapeFile} else files - {shapeFile}
  }

  /**
   * A parameter "x" linked to "a.shp" whose name is missing from the new
   * file: with `stillLinked` computed as the Update action does, it stays
   * linked; with the intended intersection it is unlinked.
   */
  lemma UpdateKeepsDroppedLink()
    ensures var ps := [Parameter("id", "x", "", true, Some("a.shp"), Some(ShapeFileSourceType), 0.0, None, ImpactMethodScope)];
            var asWritten := Referenced(ps, "a.shp");
            var intended := Referenced(ps, "a.shp") * NamesOf([]);
            && Referenced(RelinkAll(ps, "a.shp", asWritten, map[]), "a.shp") == {"x"}
            && Referenced(RelinkAll(ps, "a.shp", intended, map[]), "a.shp") == {}
  {
    var ps := [Parameter("id", "x", "", true, Some("a.shp"), Some(ShapeFileSourceType), 0.0, None, ImpactMethodScope)];
    assert Referenced(ps, "a.shp") == {"x"} by {
      assert ps[0] in ps && LinkedTo(ps[0], "a.shp");
    }
    RelinkReferences(ps, "a.shp", {"x"}, map[]);
    RelinkReferences(ps, "a.shp", {}, map[]);
  }

  /** `System.arraycopy` between two distinct arrays, within bounds. */
  method ArrayCopy<T>(src: array<T>, srcPos: nat, dst: array<T>, dstPos: nat, length: nat)
    requires src != dst
    requires srcPos + length <= src.Length && dstPos + length <= dst.Length
    modifies dst
    ensures forall j :: 0 <= j < dst.Length ==>
              dst[j] == if dstPos <= j < dstPos + length then src[srcPos + (j - dstPos)] else old(dst[j])
  {
    for k := 0 to length
      invariant forall j :: 0 <= j < dst.Length ==>
                  dst[j] == if dstPos <= j < dstPos + k then src[srcPos + (j - dstPos)] else old(dst[j])
    {
      dst[dstPos + k] := src[srcPos + k];
    }
  }

  /** A section of the page: the position it was created at and its shape file. */
  class ShapeFileSection {
    const index: nat
    const shapeFile: string

    constructor (index: nat, shapeFile: string)
      ensures this.index == index && this.shapeFile == shapeFile
    {
      this.index := index;
      this.shapeFile := shapeFile;
    }
  }

  class ShapeFilePage {
    var sections: array<ShapeFileSection>
    /** The parameters of the edited method (`method().parameters`). */
    var parameters: seq<Parameter>
    /** The shape files stored for the method. */
    var files: set<string>
    /** The editor's dirty flag and the number of saves requested. */
    var dirty: bool
    var saves: nat

    /** Every section's `index` is its position in `sections`. */
    ghost predicate IndexesMatch()
      reads this, sections
    {
      forall k :: 0 <= k < sections.Length ==> sections[k].index == k
    }

    /** `createFormContent`: one section per stored shape file, numbered by position. */
    constructor (shapeFiles: seq<string>, parameters: seq<Parameter>)
      ensures sections.Length == |shapeFiles| && IndexesMatch()
      ensures forall k :: 0 <= k < |shapeFiles| ==> sections[k].shapeFile == shapeFiles[k]
      ensures this.parameters == parameters && files == set f | f in shapeFiles
      ensures !dirty && saves == 0
    {
      var created: seq<ShapeFileSection> := [];
      for i := 0 to |shapeFiles|
        invariant |created| == i
        invariant forall k :: 0 <= k < i ==> created[k].index == k && created[k].shapeFile == shapeFiles[k]
      {
        var section := new ShapeFileSection(i, shapeFiles[i]);
        created := created + [section];
      }
      sections := new ShapeFileSection[|created|](k requires 0 <= k < |created| => created[k]);
      this.parameters := parameters;
      files := set f | f in shapeFiles;
      dirty, saves := false, 0;
    }

    /** `getReferencedParameters`: the names of the input parameters linked to the section's file. */
    method GetReferencedParameters(s: ShapeFileSection) returns (names: set<string>)
      ensures names == Referenced(parameters, s.shapeFile)
      ensures forall n :: n in names <==> exists p :: p in parameters && p.isInput
                                              && p.externalSource == Some(s.shapeFile) && p.name == n
    {
      names := {};
      for i := 0 to |parameters|
        invariant names == Referenced(parameters[..i], s.shapeFile)
      {
        assert forall p :: p in parameters[..i + 1] <==> p in parameters[..i] || p == parameters[i];
        var p := parameters[i];
        if p.isInput {
          if p.externalSource == Some(s.shapeFile) {
            names := names + {p.name};
          }
        }
      }
      assert parameters[..|parameters|] == parameters;
    }

    /** `AddParamAction.exists`. */
    method Exists(s: ShapeFileSection, param: ShapeFileParameter) returns (r: bool)
      ensures r == AlreadyAddedIn(parameters, s.shapeFile, param)
    {
      for i := 0 to |parameters|
        invariant !AlreadyAddedIn(parameters[..i], s.shapeFile, param)
      {
        assert forall p :: p in parameters[..i + 1] <==> p in parameters[..i] || p == parameters[i];
        var p := parameters[i];
        if param.name == p.name && p.sourceType == Some(ShapeFileSourceType) && p.externalSource == Some(s.shapeFile) {
          return true;
        }
      }
      assert parameters[..|parameters|] == parameters;
      return false;
    }

    /** `AddParamAction.otherExists`. */
    method OtherExists(s: ShapeFileSection, param: ShapeFileParameter) returns (r: bool)
      ensures r == NameTakenIn(parameters, s.shapeFile, param)
    {
      for i := 0 to |parameters|
        invariant !NameTakenIn(parameters[..i], s.shapeFile, param)
      {
        assert forall p :: p in parameters[..i + 1] <==> p in parameters[..i] || p == parameters[i];
        var p := parameters[i];
        if param.name == p.name && p.externalSource != Some(s.shapeFile) {
          return true;
        }
      }
      assert parameters[..|parameters|] == parameters;
      return false;
    }

    /**
     * `AddParamAction.run`: without a selection, for a parameter already
     * added from this file, for a name used by another parameter or for an
     * invalid name nothing is added; otherwise one parameter linked to the
     * file joins the end of the list and the editor is dirty.
     */
    method AddParam(s: ShapeFileSection, selected: Option<ShapeFileParameter>,
                    isValidName: string -> bool, refId: string) returns (r: AddResult)
      modifies this`parameters, this`dirty
      ensures r == NoSelection <==> selected.None?
      ensures r == AlreadyAdded <==> selected.Some? && AlreadyAddedIn(old(parameters), s.shapeFile, selected.value)
      ensures r == NameTaken <==> selected.Some? && !AlreadyAddedIn(old(parameters), s.shapeFile, selected.value)
                                   && NameTakenIn(old(parameters), s.shapeFile, selected.value)
      ensures r == InvalidName <==> selected.Some? && !AlreadyAddedIn(old(parameters), s.shapeFile, selected.value)
                                     && !NameTakenIn(old(parameters), s.shapeFile, selected.value)
                                     && !isValidName(selected.value.name)
      ensures r != Added ==> parameters == old(parameters) && dirty == old(dirty)
      ensures r == Added ==> parameters == old(parameters) + [NewParameter(s.shapeFile, selected.value, refId)] && dirty
      ensures r == Added ==> AlreadyAddedIn(parameters, s.shapeFile, selected.value)
                             && selected.value.name in Referenced(parameters, s.shapeFile)
    {
      if selected.None? {
        return NoSelection;
      }
      var param := selected.value;
      var added := Exists(s, param);
      if added {
        return AlreadyAdded;
      }
      var other := OtherExists(s, param);
      if other {
        return NameTaken;
      }
      if !isValidName(param.name) {
        return InvalidName;
      }
      var p := NewParameter(s.shapeFile, param, refId);
      parameters := parameters + [p];
      assert p in parameters && LinkedTo(p, s.shapeFile);
      dirty := true;
      return Added;
    }

    /**
     * `runImport`: the file is stored; if any of its parameters has an invalid
     * name it is deleted again and nothing is returned; otherwise a section
     * numbered by the current length joins the end of the array.
     */
    method RunImport(shapeFile: string, params: seq<ShapeFileParameter>, isValidName: string -> bool)
      returns (imported: seq<ShapeFileParameter>)
      modifies this`sections, this`files
      ensures (exists p :: p in params && !isValidName(p.name)) ==>
                imported == [] && sections == old(sections) && files == old(files) - {shapeFile}
      ensures (forall p :: p in params ==> isValidName(p.name)) ==>
                && imported == params && files == old(files) + {shapeFile}
                && fresh(sections) && sections.Length == old(sections.Length) + 1
                && sections[..old(sections.Length)] == old(sections[..])
                && fresh(sections[old(sections.Length)])
                && sections[old(sections.Length)].index == old(sections.Length)
                && sections[old(sections.Length)].shapeFile == shapeFile
      ensures old(IndexesMatch()) ==> IndexesMatch()
    {
      files := files + {shapeFile};
      for i := 0 to |params|
        invariant forall j :: 0 <= j < i ==> isValidName(params[j].name)
      {
        if !isValidName(params[i].name) {
          files := files - {shapeFile};
          return [];
        }
      }
      var n := sections.Length;
      var section := new ShapeFileSection(n, shapeFile);
      var newSections := new ShapeFileSection[n + 1](_ => section);
      ArrayCopy(sections, 0, newSections, 0, n);
      newSections[n] := section;
      sections := newSections;
      return params;
    }

    /**
     * `checkRunImport`: an invalid file, a file whose name is taken and an
     * import that throws add no section and return nothing; otherwise
     * `runImport` decides.
     */
    method CheckRunImport(valid: bool, alreadyExists: bool, outcome: ImportOutcome, isValidName: string -> bool)
      returns (imported: seq<ShapeFileParameter>)
      modifies this`sections, this`files
      ensures !valid || alreadyExists || outcome.ImportFailed? ==>
                imported == [] && sections == old(sections) && files == old(files)
      ensures valid && !alreadyExists && outcome.ReadFailed? ==>
                imported == [] && sections == old(sections) && files == old(files) + {outcome.shapeFile}
      ensures valid && !alreadyExists && outcome.Imported? && (exists p :: p in outcome.params && !isValidName(p.name)) ==>
                imported == [] && sections == old(sections) && files == old(files) - {outcome.shapeFile}
      ensures valid && !alreadyExists && outcome.Imported? && (forall p :: p in outcome.params ==> isValidName(p.name)) ==>
                && imported == outcome.params && files == old(files) + {outcome.shapeFile}
                && fresh(sections) && sections.Length == old(sections.Length) + 1
                && sections[..old(sections.Length)] == old(sections[..])
                && sections[old(sections.Length)].index == old(sections.Length)
                && sections[old(sections.Length)].shapeFile == outcome.shapeFile
      ensures files == FilesAfterImport(old(files), valid, alreadyExists, outcome, isValidName)
      ensures imported == if ImportAccepted(valid, alreadyExists, outcome, isValidName) then outcome.params else []
      ensures !ImportAccepted(valid, alreadyExists, outcome, isValidName) ==> sections == old(sections)
      ensures sections == old(sections) || fresh(sections)
      ensures old(IndexesMatch()) ==> IndexesMatch()
    {
      if !valid || alreadyExists {
        return [];
      }
      match outcome
      case ImportFailed =>
        return [];
      case ReadFailed(shapeFile) =>
        files := files + {shapeFile};
        return [];
      case Imported(shapeFile, params) =>
        imported := RunImport(shapeFile, params, isValidName);
    }

    /**
     * `delete(force)`, as written: unless forced or confirmed it returns
     * false and changes nothing; otherwise it deletes the file and removes
     * the entry at the section's stored `index`, which is not the section's
     * position once an earlier section was deleted; an index past the new
     * end makes `arraycopy` (or the array allocation) throw.
     */
    method Delete(s: ShapeFileSection, force: bool, confirmed: bool) returns (r: DeleteResult)
      modifies this`sections, this`files
      ensures r == Declined <==> !force && !confirmed
      ensures r == Declined ==> sections == old(sections) && files == old(files)
      ensures r != Declined ==> files == old(files) - {s.shapeFile}
      ensures r == Thrown <==> (force || confirmed) && s.index >= old(sections.Length)
      ensures r == Thrown ==> sections == old(sections)
      ensures r == Deleted ==> fresh(sections) && s.index < old(sections.Length)
                               && sections[..] == RemoveAt(old(sections[..]), s.index)
      ensures r == Deleted ==> sections[..s.index] == old(sections[..s.index])
      ensures r == Deleted ==> forall k :: s.index <= k < sections.Length ==> sections[k] == old(sections[k + 1])
      ensures r == Deleted && old(IndexesMatch()) && s in old(sections[..]) ==> old(sections[s.index]) == s
    {
      var del := force || confirmed;
      if !del {
        return Declined;
      }
      files := files - {s.shapeFile};
      var n := sections.Length;
      if s.index >= n {
        return Thrown;
      }
      var newSections := new ShapeFileSection[n - 1](_ => s);
      ArrayCopy(sections, 0, newSections, 0, s.index);
      if s.index + 1 < n {
        ArrayCopy(sections, s.index + 1, newSections, s.index, newSections.Length - s.index);
      }
      sections := newSections;
      return Deleted;
    }

    /** The first position of the section in the array, or -1. */
    method PositionOf(s: ShapeFileSection) returns (k: int)
      ensures -1 <= k < sections.Length
      ensures k >= 0 ==> sections[k] == s && forall j :: 0 <= j < k ==> sections[j] != s
      ensures k < 0 <==> s !in sections[..]
    {
      for i := 0 to sections.Length
        invariant forall j :: 0 <= j < i ==> sections[j] != s
      {
        if sections[i] == s {
          return i;
        }
      }
      return -1;
    }

    /**
     * `delete(force)` as intended: the entry removed is the section itself,
     * found by identity rather than by its stored `index`.
     */
    method DeleteSection(s: ShapeFileSection, force: bool, confirmed: bool) returns (r: DeleteResult)
      modifies this`sections, this`files
      ensures r != Thrown
      ensures r == Declined <==> !force && !confirmed
      ensures r == Declined ==> sections == old(sections) && files == old(files)
      ensures r == Deleted ==> files == old(files) - {s.shapeFile}
      ensures r == Deleted && s !in old(sections[..]) ==> sections == old(sections)
      ensures r == Deleted && s in old(sections[..]) ==>
                exists k :: 0 <= k < old(sections.Length) && old(sections[k]) == s
                            && (forall j :: 0 <= j < k ==> old(sections[j]) != s)
                            && sections[..] == RemoveAt(old(sections[..]), k)
      ensures r == Deleted && (forall i, j :: 0 <= i < j < old(sections.Length) ==> old(sections[i]) != old(sections[j])) ==>
                s !in sections[..] && forall x :: x in old(sections[..]) && x != s ==> x in sections[..]
    {
      if !force && !confirmed {
        return Declined;
      }
      files := files - {s.shapeFile};
      var k := PositionOf(s);
      if k < 0 {
        return Deleted;
      }
      ghost var before := sections[..];
      var n := sections.Length;
      var newSections := new ShapeFileSection[n - 1](_ => s);
      ArrayCopy(sections, 0, newSections, 0, k);
      if k + 1 < n {
        ArrayCopy(sections, k + 1, newSections, k, newSections.Length - k);
      }
      sections := newSections;
      assert sections[..] == RemoveAt(before, k);
      if forall i, j :: 0 <= i < j < |before| ==> before[i] != before[j] {
        RemoveAtMembers(before, k);
      }
      return Deleted;
    }

    /**
     * `removeExternalSourceReferences`: every input parameter linked to the
     * section's file loses its external source; the editor is dirty.
     */
    method RemoveExternalSourceReferences(s: ShapeFileSection)
      modifies this`parameters, this`dirty
      ensures parameters == UnlinkAll(old(parameters), s.shapeFile)
      ensures Referenced(parameters, s.shapeFile) == {}
      ensures forall other :: other != s.shapeFile ==> Referenced(parameters, other) == Referenced(old(parameters), other)
      ensures dirty
    {
      ghost var before := parameters;
      for i := 0 to |parameters|
        invariant |parameters| == |before|
        invariant forall j :: 0 <= j < |before| ==> parameters[j] == if j < i then Unlink(before[j], s.shapeFile) else before[j]
      {
        var p := parameters[i];
        if !p.isInput {
          continue;
        }
        if p.externalSource == Some(s.shapeFile) {
          parameters := parameters[i := p.(externalSource := None)];
        }
      }
      UnlinkReferences(before, s.shapeFile);
      forall other | other != s.shapeFile
        ensures Referenced(parameters, other) == Referenced(before, other)
      {
        UnlinkKeepsOtherLinks(before, s.shapeFile, other);
      }
      dirty := true;
    }

    /**
     * `updateExternalSourceReferences`: a linked input parameter whose name is
     * not still linked is unlinked; one that is still linked and has a new
     * range takes its mean and a uniform distribution; the rest is untouched.
     */
    method UpdateExternalSourceReferences(s: ShapeFileSection, stillLinked: set<string>,
                                          nameToParam: map<string, ShapeFileParameter>)
      modifies this`parameters
      ensures parameters == RelinkAll(old(parameters), s.shapeFile, stillLinked, nameToParam)
      ensures Referenced(parameters, s.shapeFile) == Referenced(old(parameters), s.shapeFile) * stillLinked
      ensures forall other :: other != s.shapeFile ==> Referenced(parameters, other) == Referenced(old(parameters), other)
    {
      ghost var before := parameters;
      for i := 0 to |parameters|
        invariant |parameters| == |before|
        invariant forall j :: 0 <= j < |before| ==>
                    parameters[j] == if j < i then Relink(before[j], s.shapeFile, stillLinked, nameToParam) else before[j]
      {
        var p := parameters[i];
        if !p.isInput {
          continue;
        }
        if p.externalSource != Some(s.shapeFile) {
          continue;
        }
        if p.name !in stillLinked {
          parameters := parameters[i := p.(externalSource := None)];
        } else {
          if p.name !in nameToParam {
            continue;
          }
          var sp := nameToParam[p.name];
          parameters := parameters[i := p.(value := (sp.min + sp.max) / 2.0, uncertainty := Some(Uniform(sp.min, sp.max)))];
        }
      }
      RelinkReferences(before, s.shapeFile, stillLinked, nameToParam);
      forall other | other != s.shapeFile
        ensures Referenced(parameters, other) == Referenced(before, other)
      {
        RelinkKeepsOtherLinks(before, s.shapeFile, stillLinked, nameToParam, other);
      }
    }

    /**
     * The remove action of a section: when `delete()` returns true, the links
     * to the file are removed and the method is saved. When `delete` throws,
     * the links stay.
     */
    method DeleteAction(s: ShapeFileSection, confirmed: bool) returns (r: DeleteResult)
      modifies this`sections, this`files, this`parameters, this`dirty, this`saves
      ensures r == Declined <==> !confirmed
      ensures r == Declined ==> sections == old(sections) && files == old(files)
      ensures r != Declined ==> files == old(files) - {s.shapeFile}
      ensures r == Thrown ==> sections == old(sections)
      ensures r == Deleted ==> s.index < old(sections.Length) && sections[..] == RemoveAt(old(sections[..]), s.index)
      ensures r != Deleted ==> parameters == old(parameters) && saves == old(saves)
      ensures r != Deleted ==> dirty == old(dirty)
      ensures r == Deleted ==> parameters == UnlinkAll(old(parameters), s.shapeFile)
      ensures r == Deleted ==> Referenced(parameters, s.shapeFile) == {} && saves == old(saves) + 1 && dirty
      ensures r == Thrown <==> confirmed && s.index >= old(sections.Length)
    {
      r := Delete(s, false, confirmed);
      if r == Deleted {
        RemoveExternalSourceReferences(s);
        saves := saves + 1;
      }
    }

    /**
     * The middle of the Update action: `delete(true)`, which may throw
     * (`None`), then `checkRunImport` of the chosen file.
     */
    method Reimport(s: ShapeFileSection, valid: bool, alreadyExists: bool, outcome: ImportOutcome,
                    isValidName: string -> bool)
      returns (imported: Option<seq<ShapeFileParameter>>)
      modifies this`sections, this`files
      ensures imported.None? <==> s.index >= old(sections.Length)
      ensures imported.None? ==> sections == old(sections) && files == old(files) - {s.shapeFile}
      ensures imported.Some? ==>
                && files == FilesAfterImport(old(files) - {s.shapeFile}, valid, alreadyExists, outcome, isValidName)
                && imported.value == (if ImportAccepted(valid, alreadyExists, outcome, isValidName) then outcome.params else [])
      ensures imported.Some? && !ImportAccepted(valid, alreadyExists, outcome, isValidName) ==>
                sections[..] == RemoveAt(old(sections[..]), s.index)
      ensures imported.Some? && ImportAccepted(valid, alreadyExists, outcome, isValidName) ==>
                && sections.Length == old(sections.Length)
                && sections[..sections.Length - 1] == RemoveAt(old(sections[..]), s.index)
                && sections[sections.Length - 1].index == sections.Length - 1
                && sections[sections.Length - 1].shapeFile == outcome.shapeFile
    {
      var r := Delete(s, true, false);
      if r == Thrown {
        return None;
      }
      var params := CheckRunImport(valid, alreadyExists, outcome, isValidName);
      return Some(params);
    }

    /**
     * The Update action of a section, as written: remember the linked names,
     * delete the section by force, import the chosen file, then update the
     * links with `stillLinked` starting from the names linked now. `imported`
     * is `None` when no file was chosen or `delete` threw.
     */
    method UpdateAction(s: ShapeFileSection, chosen: bool, valid: bool, alreadyExists: bool,
                        outcome: ImportOutcome, isValidName: string -> bool)
      returns (imported: Option<seq<ShapeFileParameter>>)
      modifies this`sections, this`files, this`parameters, this`saves
      ensures imported.None? <==> !chosen || s.index >= old(sections.Length)
      ensures !chosen ==> sections == old(sections) && files == old(files)
      ensures chosen && imported.None? ==> sections == old(sections) && files == old(files) - {s.shapeFile}
      ensures imported.None? ==> parameters == old(parameters) && saves == old(saves)
      ensures imported.Some? ==>
                && files == FilesAfterImport(old(files) - {s.shapeFile}, valid, alreadyExists, outcome, isValidName)
                && imported.value == (if ImportAccepted(valid, alreadyExists, outcome, isValidName) then outcome.params else [])
      ensures imported.Some? && !ImportAccepted(valid, alreadyExists, outcome, isValidName) ==>
                sections[..] == RemoveAt(old(sections[..]), s.index)
      ensures imported.Some? && ImportAccepted(valid, alreadyExists, outcome, isValidName) ==>
                && sections.Length == old(sections.Length)
                && sections[..sections.Length - 1] == RemoveAt(old(sections[..]), s.index)
                && sections[sections.Length - 1].index == sections.Length - 1
                && sections[sections.Length - 1].shapeFile == outcome.shapeFile
      ensures imported.Some? ==>
                var linked := old(Referenced(parameters, s.shapeFile));
                parameters == RelinkAll(old(parameters), s.shapeFile, linked, NameToParam(imported.value, linked))
      ensures imported.Some? ==> saves == old(saves) + 1
      ensures Referenced(parameters, s.shapeFile) == old(Referenced(parameters, s.shapeFile))
    {
      if !chosen {
        return None;
      }
      var previouslyLinked := GetReferencedParameters(s);
      imported := Reimport(s, valid, alreadyExists, outcome, isValidName);
      if imported.None? {
        return None;
      }
      var params := imported.value;
      var linkedNow := GetReferencedParameters(s);
      var stillLinked, nameToParam := AddProvided(params, previouslyLinked, linkedNow);
      UpdateExternalSourceReferences(s, stillLinked, nameToParam);
      saves := saves + 1;
    }

    /**
     * The Update action as intended: `stillLinked` holds the names linked
     * before the update that the new file still provides, so parameters
     * whose attribute is gone are unlinked.
     */
    method UpdateActionIntended(s: ShapeFileSection, chosen: bool, valid: bool, alreadyExists: bool,
                                outcome: ImportOutcome, isValidName: string -> bool)
      returns (imported: Option<seq<ShapeFileParameter>>)
      modifies this`sections, this`files, this`parameters, this`saves
      ensures imported.None? <==> !chosen || s.index >= old(sections.Length)
      ensures !chosen ==> sections == old(sections) && files == old(files)
      ensures chosen && imported.None? ==> sections == old(sections) && files == old(files) - {s.shapeFile}
      ensures imported.None? ==> parameters == old(parameters) && saves == old(saves)
      ensures imported.Some? ==>
                && files == FilesAfterImport(old(files) - {s.shapeFile}, valid, alreadyExists, outcome, isValidName)
                && imported.value == (if ImportAccepted(valid, alreadyExists, outcome, isValidName) then outcome.params else [])
      ensures imported.Some? && !ImportAccepted(valid, alreadyExists, outcome, isValidName) ==>
                sections[..] == RemoveAt(old(sections[..]), s.index)
      ensures imported.Some? && ImportAccepted(valid, alreadyExists, outcome, isValidName) ==>
                && sections.Length == old(sections.Length)
                && sections[..sections.Length - 1] == RemoveAt(old(sections[..]), s.index)
                && sections[sections.Length - 1].index == sections.Length - 1
                && sections[sections.Length - 1].shapeFile == outcome.shapeFile
      ensures imported.Some? ==>
                var linked := old(Referenced(parameters, s.shapeFile));
                parameters == RelinkAll(old(parameters), s.shapeFile, linked * NamesOf(imported.value),
                                        NameToParam(imported.value, linked))
      ensures imported.Some? ==> saves == old(saves) + 1
      ensures imported.Some? ==>
                Referenced(parameters, s.shapeFile) == old(Referenced(parameters, s.shapeFile)) * NamesOf(imported.value)
    {
      if !chosen {
        return None;
      }
      var previouslyLinked := GetReferencedParameters(s);
      imported := Reimport(s, valid, alreadyExists, outcome, isValidName);
      if imported.None? {
        return None;
      }
      var params := imported.value;
      var stillLinked, nameToParam := AddProvided(params, previouslyLinked, {});
      UpdateExternalSourceReferences(s, stillLinked, nameToParam);
      saves := saves + 1;
    }
  }

  /**
   * The loop of the Update action: starting from `stillLinked`, add every
   * imported attribute name that was linked before, and map it to the last
   * attribute of that name.
   */
  method AddProvided(params: seq<ShapeFileParameter>, previouslyLinked: set<string>, stillLinked: set<string>)
    returns (linked: set<string>, nameToParam: map<string, ShapeFileParameter>)
    ensures linked == stillLinked + previouslyLinked * NamesOf(params)
    ensures nameToParam == NameToParam(params, previouslyLinked)
  {
    linked, nameToParam := stillLinked, map[];
    for i := 0 to |params|
      invariant linked == stillLinked + previouslyLinked * NamesOf(params[..i])
      invariant nameToParam == NameToParam(params[..i], previouslyLinked)
    {
      assert params[..i + 1][..i] == params[..i];
      assert forall sp :: sp in params[..i + 1] <==> sp in params[..i] || sp == params[i];
      if params[i].name in previouslyLinked {
        linked := linked + {params[i].name};
        nameToParam := nameToParam[params[i].name := params[i]];
      }
    }
    assert params[..|params|] == params;
  }

  /**
   * Three sections a, b, c. After a is deleted, the entry removed for b is
   * the one at b's stale `index` 1, which is now c: b's entry stays and c's
   * is gone.
   */
  method StaleIndexRemovesWrongEntry() returns (remaining: seq<string>)
    ensures remaining == ["b.shp"]
  {
    var page := new ShapeFilePage(["a.shp", "b.shp", "c.shp"], []);
    var a, b := page.sections[0], page.sections[1];
    var r := page.Delete(a, false, true);
    r := page.Delete(b, false, true);
    remaining := [page.sections[0].shapeFile];
    assert page.sections.Length == 1;
  }

  /** The same two deletes, by identity, leave c. */
  method IdentityDeleteKeepsRightEntry() returns (remaining: seq<string>)
    ensures remaining == ["c.shp"]
  {
    var page := new ShapeFilePage(["a.shp", "b.shp", "c.shp"], []);
    var a, b, c := page.sections[0], page.sections[1], page.sections[2];
    var r := page.DeleteSection(a, false, true);
    r := page.DeleteSection(b, false, true);
    assert page.sections[..] == [c];
    remaining := [page.sections[0].shapeFile];
  }

  /**
   * Two sections a, b and a parameter "x" linked to b. After a is deleted,
   * deleting b throws: b's file is gone but "x" is still linked to it.
   */
  method StaleIndexLeavesLinks() returns (second: DeleteResult, fileKept: bool, linked: set<string>)
    ensures second == Thrown && !fileKept && linked == {"x"}
  {
    var x := Parameter("id", "x", "", true, Some("b.shp"), Some(ShapeFileSourceType), 0.0, None, ImpactMethodScope);
    var page := new ShapeFilePage(["a.shp", "b.shp"], [x]);
    var a, b := page.sections[0], page.sections[1];
    assert b.index == 1;
    var first := page.DeleteAction(a, true);
    assert page.parameters == [x];
    assert page.sections.Length == 1;
    second := page.DeleteAction(b, true);
    assert second == Thrown && page.parameters == [x];
    fileKept := "b.shp" in page.files;
    linked := page.GetReferencedParameters(b);
    assert x in page.parameters && LinkedTo(x, "b.shp");
  }

  /**
   * A parameter "x" linked to "a.shp"; the re-imported file gives "x" the
   * range [2, 4]. After the Update action "x" is still linked, has the mean
   * 3 and a uniform distribution over the new range.
   */
  method UpdateRefreshesRange() returns (linked: bool, value: real, uncertainty: Option<Uncertainty>)
    ensures linked && value == 3.0 && uncertainty == Some(Uniform(2.0, 4.0))
  {
    var x := Parameter("id", "x", "", true, Some("a.shp"), Some(ShapeFileSourceType), 0.0, None, ImpactMethodScope);
    var page := new ShapeFilePage(["a.shp"], [x]);
    var a := page.sections[0];
    var sp := ShapeFileParameter("x", 2.0, 4.0);
    assert Referenced([x], "a.shp") == {"x"} by {
      assert [x][0] in [x] && LinkedTo([x][0], "a.shp");
    }
    var imported := page.UpdateAction(a, true, true, false, Imported("a.shp", [sp]), _ => true);
    assert imported == Some([sp]);
    NameToParamEntries([sp], {"x"});
    assert [sp][0] in [sp];
    assert NameToParam([sp], {"x"})["x"] == sp;
    linked := LinkedTo(page.parameters[0], "a.shp");
    value, uncertainty := page.parameters[0].value, page.parameters[0].uncertainty;
  }

  /**
   * A page whose parameter "x" is linked to "a.shp", updated with a file
   * that provides only "y": as written "x" stays linked to "a.shp"; with the
   * corrected action it is unlinked.
   */
  method UpdateKeepsLinkOfDroppedAttribute() returns (asWritten: set<string>, intended: set<string>)
    ensures asWritten == {"x"} && intended == {}
  {
    var x := Parameter("id", "x", "", true, Some("a.shp"), Some(ShapeFileSourceType), 0.0, None, ImpactMethodScope);
    var y := ShapeFileParameter("y", 0.0, 1.0);
    assert Referenced([x], "a.shp") == {"x"} by {
      assert [x][0] in [x] && LinkedTo([x][0], "a.shp");
    }
    assert NamesOf([y]) == {"y"} by {
      assert [y][0] in [y];
    }

    var page := new ShapeFilePage(["a.shp"], [x]);
    var a := page.sections[0];
    var imported := page.UpdateAction(a, true, true, false, Imported("a.shp", [y]), _ => true);
    asWritten := page.GetReferencedParameters(a);

    var fixedPage := new ShapeFilePage(["a.shp"], [x]);
    var b := fixedPage.sections[0];
    imported := fixedPage.UpdateActionIntended(b, true, true, false, Imported("a.shp", [y]), _ => true);
    intended := fixedPage.GetReferencedParameters(b);
  }
}
