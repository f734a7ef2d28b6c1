/**
 The entities the dependency-graph generator works on: node identities, the
 three maps it builds, and the lookup faults that abort it.
 */
module Graph {
  import opened Dicts

  /** A package is identified by its name; the ignore list holds such names. */
  type PackageId = string

  /** How the membership tests of lines 31 and 92 compare a package object (the
      enumerated `package`, the stored `own_package`) with the ignore list,
      which holds package names. As written, the object is compared with name
      strings, and Python's default equality never finds it there (`AsWritten`).
      The evidently intended test compares the package's name (`ByName`). The
      tests of lines 89, 96 and 105 compare names and are unaffected. */
  datatype ObjectTest = AsWritten | ByName

  /** The packages whose object the tests of lines 31 and 92 find in the ignore list. */
  function ObjectIgnored(ignore: seq<PackageId>, test: ObjectTest): (r: seq<PackageId>)
    ensures test.AsWritten? ==> r == []
    ensures test.ByName? ==> forall p :: p in r <==> p in ignore
  {
    if test.ByName? then ignore else []
  }

  /** A node of the graph. A module and a recipe with the same name are distinct
      nodes; the source encodes this as the tuple `(is_recipe, name)`. */
  datatype NodeId = Module(name: string) | Recipe(name: string)

  /** What the registry reports for one enumerated `(package, module)` pair. */
  datatype ModuleDecl = ModuleDecl(package: PackageId, name: string, deps: seq<string>)

  /** What the registry reports for one recipe visible to the own package. */
  datatype RecipeDecl = RecipeDecl(name: string, deps: seq<string>)

  /** A dictionary lookup that raises `KeyError` in the source. */
  datatype Fault =
    | MissingNode(node: NodeId)          // `all_deps[itm]` while pruning
    | MissingOwner(moduleName: string)     // `module_to_package[...]` while rendering edges
    | MissingRecipeOwner(recipeName: string) // `recipe_to_package[...]` while rendering edges

  datatype Result<T> = Ok(value: T) | Err(fault: Fault) {
    predicate IsFailure() {
      Err?
    }

    function PropagateFailure<U>(): Result<U>
      requires Err?
    {
      Err(fault)
    }

    function Extract(): T
      requires Ok?
    {
      value
    }
  }

  /** The three maps: `all_deps`, `module_to_package`, `recipe_to_package`. */
  datatype Collected = Collected(
    nodes: Dict<NodeId, seq<string>>,
    moduleOwner: Dict<string, PackageId>,
    recipeOwner: Dict<string, PackageId>)
  {
    ghost predicate Valid() {
      nodes.Valid() && moduleOwner.Valid() && recipeOwner.Valid()
    }

    /** Every module node has an owner entry and every owner entry a node, and
        likewise for recipes: the source writes the two maps side by side. */
    ghost predicate OwnersMatch() {
      && (forall n :: Module(n) in nodes.m <==> n in moduleOwner.m)
      && (forall n :: Recipe(n) in nodes.m <==> n in recipeOwner.m)
    }

    /** Every dependency of every node has an owner entry, so the target-owner
        lookup while rendering edges cannot fail. */
    ghost predicate DepsOwned() {
      forall k, d :: k in nodes.m && d in nodes.m[k] ==> d in moduleOwner.m
    }
  }

  /** The dependency names of one node, as module nodes. */
  function DepNodes(deps: seq<string>): (r: seq<NodeId>)
    ensures |r| == |deps|
    ensures forall i :: 0 <= i < |deps| ==> r[i] == Module(deps[i])
  {
    if deps == [] then [] else [Module(deps[0])] + DepNodes(deps[1..])
  }
}
