/** The meal planner's server: one JSON document `{recipes, plan, grocery}`
    kept in `data.json`, created with defaults on first use, and six request
    handlers: three reads that only load the document, and three writes that
    validate the request body, return early on a bad one, load the document,
    change one field and save it again. The file is an in-memory `Option<Document>`;
    `nanoid()` is the `id` parameter of the add-recipe handler. */
module Server {
  import opened Js

  /** A stored recipe. The fields other than `id` are the request body's
      values, copied as they are (the server checks only that title and url
      are truthy). */
  datatype Recipe = Recipe(
    id: string, title: Json, url: Json, tags: Json, notes: Json,
    protein: Json, kidFriendly: Json, glutenFree: Json)

  /** The persisted document. `grocery` is None when the key is missing from
      the file, a case the grocery read defends against. */
  datatype Document = Document(recipes: seq<Recipe>, plan: Json, grocery: Option<Json>)

  /** A handler's answer: the JSON body of a 200 response, or a 400 response
      with `{ error }`. */
  datatype Reply<T> = Ok(value: T) | BadRequest(error: string)

  /** The file after a request, and the reply. */
  datatype Outcome<T> = Outcome(file: Option<Document>, reply: Reply<T>)

  /** The request body as Express hands it over: property name to value. */
  type Body = map<string, Json>

  const TitleAndUrlRequired: string := "title and url required"
  const PlanRequired: string := "plan required"
  const ItemsArrayRequired: string := "items array required"

  /** The plan written on first use: each of the five days with no recipe. */
  const DefaultPlan: Json :=
    JObj(map["Sun" := JArr([]), "Mon" := JArr([]), "Tue" := JArr([]),
             "Wed" := JArr([]), "Thu" := JArr([])])

  /** The document written when `data.json` does not exist. */
  const DefaultDocument: Document := Document([], DefaultPlan, Some(JArr([])))

  /** The first document has no recipes, no grocery items, and a plan with
      exactly the keys Sun, Mon, Tue, Wed and Thu, each an empty list. */
  lemma DefaultDocumentShape()
    ensures DefaultDocument.recipes == [] && DefaultDocument.grocery == Some(JArr([]))
    ensures DefaultDocument.plan.JObj?
    ensures DefaultDocument.plan.fields.Keys == {"Sun", "Mon", "Tue", "Wed", "Thu"}
    ensures forall day :: day in DefaultDocument.plan.fields ==>
      DefaultDocument.plan.fields[day] == JArr([])
  {
  }

  /** `loadData()`: the stored document, or the default one when there is no
      file yet. */
  function Loaded(file: Option<Document>): Document {
    if file.Some? then file.value else DefaultDocument
  }

  /** Loading is the identity on a file that exists, so once the first load
      has created the file no read changes it. */
  lemma LoadedOfLoaded(file: Option<Document>)
    ensures Loaded(Some(Loaded(file))) == Loaded(file)
    ensures file.Some? ==> Some(Loaded(file)) == file
    ensures file.None? ==> Loaded(file) == DefaultDocument
  {
  }

  // ------------------------------------------------------------ recipes

  /** `!title || !url` is false: both are present and truthy. */
  predicate TitleAndUrlGiven(body: Body) {
    Given(Prop(body, "title")) && Given(Prop(body, "url"))
  }

  /** The record built by the add-recipe handler, with the destructuring
      defaults: tags `[]`, notes and protein `""`, kidFriendly and glutenFree
      `false`. */
  function RecipeFrom(body: Body, id: string): Recipe {
    Recipe(
      id,
      OrDefault(Prop(body, "title"), JNull),
      OrDefault(Prop(body, "url"), JNull),
      OrDefault(Prop(body, "tags"), JArr([])),
      OrDefault(Prop(body, "notes"), JStr("")),
      OrDefault(Prop(body, "protein"), JStr("")),
      OrDefault(Prop(body, "kidFriendly"), JBool(false)),
      OrDefault(Prop(body, "glutenFree"), JBool(false)))
  }

  /** The new recipe carries the generated id, the title and url as sent,
      each optional field as sent when the body has it (null included) and its
      default when the body lacks it. */
  lemma RecipeFromFields(body: Body, id: string)
    requires TitleAndUrlGiven(body)
    ensures RecipeFrom(body, id).id == id
    ensures RecipeFrom(body, id).title == body["title"] && Truthy(RecipeFrom(body, id).title)
    ensures RecipeFrom(body, id).url == body["url"] && Truthy(RecipeFrom(body, id).url)
    ensures RecipeFrom(body, id).tags == if "tags" in body then body["tags"] else JArr([])
    ensures RecipeFrom(body, id).notes == if "notes" in body then body["notes"] else JStr("")
    ensures RecipeFrom(body, id).protein == if "protein" in body then body["protein"] else JStr("")
    ensures RecipeFrom(body, id).kidFriendly == if "kidFriendly" in body then body["kidFriendly"] else JBool(false)
    ensures RecipeFrom(body, id).glutenFree == if "glutenFree" in body then body["glutenFree"] else JBool(false)
  {
  }

  /** `POST /api/recipes`: a body without a truthy title and url is refused
      before the file is touched; otherwise the document is loaded, the new
      recipe appended at the end of `recipes` with plan and grocery left
      alone, and the stored record is the reply. */
  function AddRecipe(file: Option<Document>, body: Body, id: string): (out: Outcome<Recipe>)
    ensures out.reply.BadRequest? <==> !TitleAndUrlGiven(body)
    ensures out.reply.BadRequest? ==>
      out.file == file && out.reply.error == TitleAndUrlRequired
    ensures out.reply.Ok? ==>
      && out.file.Some?
      && out.file.value.recipes == Loaded(file).recipes + [out.reply.value]
      && out.file.value.plan == Loaded(file).plan
      && out.file.value.grocery == Loaded(file).grocery
      && out.reply.value == RecipeFrom(body, id)
  {
    if !TitleAndUrlGiven(body) then Outcome(file, BadRequest(TitleAndUrlRequired))
    else
      var data := Loaded(file);
      var recipe := RecipeFrom(body, id);
      Outcome(Some(data.(recipes := data.recipes + [recipe])), Ok(recipe))
  }

  /** The ids of a list of recipes. */
  function Ids(recipes: seq<Recipe>): (ids: set<string>)
    ensures forall k :: 0 <= k < |recipes| ==> recipes[k].id in ids
    ensures forall x :: x in ids ==> exists k :: 0 <= k < |recipes| && recipes[k].id == x
  {
    set k | 0 <= k < |recipes| :: recipes[k].id
  }

  /** No two recipes share an id. */
  ghost predicate IdsDistinct(recipes: seq<Recipe>) {
    forall j, k :: 0 <= j < k < |recipes| ==> recipes[j].id != recipes[k].id
  }

  /** An accepted recipe with an id not already in the document keeps the ids
      distinct. */
  lemma AddRecipeKeepsIdsDistinct(file: Option<Document>, body: Body, id: string)
    requires IdsDistinct(Loaded(file).recipes)
    requires id !in Ids(Loaded(file).recipes)
    ensures IdsDistinct(Loaded(AddRecipe(file, body, id).file).recipes)
  {
    var rs := Loaded(file).recipes;
    if TitleAndUrlGiven(body) {
      var rs' := rs + [RecipeFrom(body, id)];
      assert Loaded(AddRecipe(file, body, id).file).recipes == rs';
      forall j, k | 0 <= j < k < |rs'| ensures rs'[j].id != rs'[k].id {
        if k == |rs| {
          assert rs'[j] == rs[j];
        }
      }
    }
  }

  // --------------------------------------------------------------- plan

  /** `POST /api/plan`: a missing or falsy `plan` is refused before the file
      is touched; otherwise the document's plan becomes the sent value as it
      is (no merge with the old plan), the other fields are kept, and the sent
      plan is the reply. */
  function SetPlan(file: Option<Document>, body: Body): (out: Outcome<Json>)
    ensures out.reply.BadRequest? <==> !Given(Prop(body, "plan"))
    ensures out.reply.BadRequest? ==> out.file == file && out.reply.error == PlanRequired
    ensures out.reply.Ok? ==>
      && out.reply.value == body["plan"]
      && out.file == Some(Loaded(file).(plan := body["plan"]))
  {
    var plan := Prop(body, "plan");
    if !Given(plan) then Outcome(file, BadRequest(PlanRequired))
    else
      var data := Loaded(file);
      Outcome(Some(data.(plan := plan.value)), Ok(plan.value))
  }

  /** `GET /api/plan` after an accepted `POST /api/plan` answers exactly the
      plan that was sent, whatever the old plan held. */
  lemma SetPlanThenGetPlan(file: Option<Document>, body: Body)
    requires Given(Prop(body, "plan"))
    ensures SetPlan(file, body).reply == Ok(body["plan"])
    ensures Loaded(SetPlan(file, body).file).plan == body["plan"]
    ensures Loaded(SetPlan(file, body).file).recipes == Loaded(file).recipes
    ensures Loaded(SetPlan(file, body).file).grocery == Loaded(file).grocery
  {
  }

  // ------------------------------------------------------------ grocery

  /** `data.grocery || []`: the stored list, or `[]` when the key is missing
      or its value is falsy. */
  function GroceryOf(data: Document): (items: Json)
    ensures !Given(data.grocery) ==> items == JArr([])
    ensures Given(data.grocery) ==> items == data.grocery.value
    ensures Truthy(items)
  {
    if Given(data.grocery) then data.grocery.value else JArr([])
  }

  /** `POST /api/grocery`: `items` that is not an array is refused before the
      file is touched; otherwise the document's grocery list becomes exactly
      `items`, the other fields are kept, and `items` is the reply. */
  function SetGrocery(file: Option<Document>, body: Body): (out: Outcome<Json>)
    ensures out.reply.BadRequest? <==> !IsArray(Prop(body, "items"))
    ensures out.reply.BadRequest? ==> out.file == file && out.reply.error == ItemsArrayRequired
    ensures out.reply.Ok? ==>
      && out.reply.value == body["items"] && out.reply.value.JArr?
      && out.file == Some(Loaded(file).(grocery := Some(body["items"])))
  {
    var items := Prop(body, "items");
    if !IsArray(items) then Outcome(file, BadRequest(ItemsArrayRequired))
    else
      var data := Loaded(file);
      Outcome(Some(data.(grocery := items)), Ok(items.value))
  }

  /** `GET /api/grocery` after an accepted `POST /api/grocery` answers exactly
      the list that was sent, the empty list included. */
  lemma SetGroceryThenGetGrocery(file: Option<Document>, body: Body)
    requires IsArray(Prop(body, "items"))
    ensures SetGrocery(file, body).reply == Ok(body["items"])
    ensures GroceryOf(Loaded(SetGrocery(file, body).file)) == body["items"]
    ensures Loaded(SetGrocery(file, body).file).recipes == Loaded(file).recipes
    ensures Loaded(SetGrocery(file, body).file).plan == Loaded(file).plan
  {
  }

  // ------------------------------------------------- sequences of calls

  /** One call of the API, with `id` the value `nanoid()` gives that call. */
  datatype Request =
    | GetRecipes
    | PostRecipe(body: Body, id: string)
    | GetPlan
    | PostPlan(body: Body)
    | GetGrocery
    | PostGrocery(body: Body)

  /** The file after one call. Every read loads, so it creates the default
      file on first use and changes nothing afterwards. */
  function Step(file: Option<Document>, req: Request): Option<Document> {
    match req
    case GetRecipes => Some(Loaded(file))
    case PostRecipe(body, id) => AddRecipe(file, body, id).file
    case GetPlan => Some(Loaded(file))
    case PostPlan(body) => SetPlan(file, body).file
    case GetGrocery => Some(Loaded(file))
    case PostGrocery(body) => SetGrocery(file, body).file
  }

  /** The file after a sequence of calls, one after another. */
  function Run(file: Option<Document>, reqs: seq<Request>): Option<Document>
    decreases |reqs|
  {
    if reqs == [] then file else Run(Step(file, reqs[0]), reqs[1..])
  }

  /** An add-recipe call that passes validation, and so calls `nanoid()`. */
  predicate MintsId(req: Request) {
    req.PostRecipe? && TitleAndUrlGiven(req.body)
  }

  /** The ids `nanoid()` hands out never repeat: each id generated by an
      accepted add-recipe call is not in the document it starts from, nor
      generated by any other call. Rejected calls never reach `nanoid()`, so
      nothing is assumed of theirs. */
  ghost predicate FreshIds(file: Option<Document>, reqs: seq<Request>) {
    && (forall k :: 0 <= k < |reqs| && MintsId(reqs[k]) ==>
          reqs[k].id !in Ids(Loaded(file).recipes))
    && (forall j, k :: 0 <= j < k < |reqs| && MintsId(reqs[j]) && MintsId(reqs[k]) ==>
          reqs[j].id != reqs[k].id)
  }

  /** One call keeps the existing recipes as a prefix and adds at most the
      recipe of its own id. */
  lemma StepRecipes(file: Option<Document>, req: Request)
    ensures Loaded(file).recipes <= Loaded(Step(file, req)).recipes
    ensures Ids(Loaded(Step(file, req)).recipes) <=
      Ids(Loaded(file).recipes) + (if MintsId(req) then {req.id} else {})
  {
    var rs := Loaded(file).recipes;
    var rs' := Loaded(Step(file, req)).recipes;
    if req.PostRecipe? && TitleAndUrlGiven(req.body) {
      assert rs' == rs + [RecipeFrom(req.body, req.id)];
      forall x | x in Ids(rs') ensures x in Ids(rs) + {req.id} {
        var k :| 0 <= k < |rs'| && rs'[k].id == x;
        if k < |rs| { assert rs'[k] == rs[k]; }
      }
    } else {
      assert rs' == rs;
    }
  }

  /** The recipes only grow: whatever calls follow, the recipes stored now
      stay, in place, at the head of the list. */
  lemma {:induction false} RunKeepsRecipes(file: Option<Document>, reqs: seq<Request>)
    ensures Loaded(file).recipes <= Loaded(Run(file, reqs)).recipes
    decreases |reqs|
  {
    if reqs != [] {
      StepRecipes(file, reqs[0]);
      RunKeepsRecipes(Step(file, reqs[0]), reqs[1..]);
    }
  }

  /** When every generated id is fresh, the recipe ids stay pairwise
      distinct across any sequence of calls. */
  lemma {:induction false} RunKeepsIdsDistinct(file: Option<Document>, reqs: seq<Request>)
    requires IdsDistinct(Loaded(file).recipes)
    requires FreshIds(file, reqs)
    ensures IdsDistinct(Loaded(Run(file, reqs)).recipes)
    decreases |reqs|
  {
    if reqs != [] {
      var next := Step(file, reqs[0]);
      StepRecipes(file, reqs[0]);
      if MintsId(reqs[0]) {
        AddRecipeKeepsIdsDistinct(file, reqs[0].body, reqs[0].id);
      }
      var rest := reqs[1..];
      forall k | 0 <= k < |rest| && MintsId(rest[k])
        ensures rest[k].id !in Ids(Loaded(next).recipes)
      {
        assert rest[k] == reqs[k + 1];
      }
      forall j, k | 0 <= j < k < |rest| && MintsId(rest[j]) && MintsId(rest[k])
        ensures rest[j].id != rest[k].id
      {
        assert rest[j] == reqs[j + 1] && rest[k] == reqs[k + 1];
      }
      RunKeepsIdsDistinct(next, rest);
    }
  }

  // -------------------------------------------------------------- store

  /** The server's persistent state: the contents of `data.json`, None
      while the file does not exist. A read handler only loads it; a write
      handler that accepts its body loads it, changes one field of the loaded
      document and saves it back whole, and one that rejects its body leaves
      it untouched. */
  class Store {
    var file: Option<Document>

    constructor (file: Option<Document>)
      ensures this.file == file
    {
      this.file := file;
    }

    /** `loadData()`: writes the default document when there is no file,
        then returns what the file holds. */
    method Load() returns (data: Document)
      modifies this
      ensures data == Loaded(old(file))
      ensures file == Some(data)
    {
      if file.None? {
        file := Some(DefaultDocument);
      }
      data := file.value;
    }

    /** `saveData(data)`: overwrites the whole file. */
    method Save(data: Document)
      modifies this
      ensures file == Some(data)
    {
      file := Some(data);
    }

    /** `GET /api/recipes`. */
    method GetRecipes() returns (recipes: seq<Recipe>)
      modifies this
      ensures file == Some(Loaded(old(file)))
      ensures recipes == Loaded(old(file)).recipes
    {
      var data := Load();
      recipes := data.recipes;
    }

    /** `POST /api/recipes`, with `id` the value of `nanoid()`. */
    method PostRecipe(body: Body, id: string) returns (reply: Reply<Recipe>)
      modifies this
      ensures Outcome(file, reply) == AddRecipe(old(file), body, id)
      ensures IdsDistinct(Loaded(old(file)).recipes) && id !in Ids(Loaded(old(file)).recipes) ==>
        IdsDistinct(Loaded(file).recipes)
    {
      if IdsDistinct(Loaded(file).recipes) && id !in Ids(Loaded(file).recipes) {
        AddRecipeKeepsIdsDistinct(file, body, id);
      }
      if !Given(Prop(body, "title")) || !Given(Prop(body, "url")) {
        return BadRequest(TitleAndUrlRequired);
      }
      var data := Load();
      var recipe := RecipeFrom(body, id);
      data := data.(recipes := data.recipes + [recipe]);
      Save(data);
      reply := Ok(recipe);
    }

    /** `GET /api/plan`. */
    method GetPlan() returns (plan: Json)
      modifies this
      ensures file == Some(Loaded(old(file)))
      ensures plan == Loaded(old(file)).plan
    {
      var data := Load();
      plan := data.plan;
    }

    /** `POST /api/plan`. */
    method PostPlan(body: Body) returns (reply: Reply<Json>)
      modifies this
      ensures Outcome(file, reply) == SetPlan(old(file), body)
    {
      var plan := Prop(body, "plan");
      if !Given(plan) {
        return BadRequest(PlanRequired);
      }
      var data := Load();
      data := data.(plan := plan.value);
      Save(data);
      reply := Ok(plan.value);
    }

    /** `GET /api/grocery`. */
    method GetGrocery() returns (items: Json)
      modifies this
      ensures file == Some(Loaded(old(file)))
      ensures items == GroceryOf(Loaded(old(file)))
    {
      var data := Load();
      items := if Given(data.grocery) then data.grocery.value else JArr([]);
    }

    /** `POST /api/grocery`. */
    method PostGrocery(body: Body) returns (reply: Reply<Json>)
      modifies this
      ensures Outcome(file, reply) == SetGrocery(old(file), body)
    {
      var items := Prop(body, "items");
      if !IsArray(items) {
        return BadRequest(ItemsArrayRequired);
      }
      var data := Load();
      data := data.(grocery := items);
      Save(data);
      reply := Ok(items.value);
    }
  }

  /** A client of the store: an accepted plan is what the next plan read
      returns, and that read changes nothing. */
  method SetPlanThenRead(store: Store, body: Body) returns (reply: Reply<Json>, read: Json)
    modifies store
    ensures reply.Ok? <==> Given(Prop(body, "plan"))
    ensures reply.Ok? ==> read == body["plan"] && reply.value == read
    ensures reply.BadRequest? ==> read == Loaded(old(store.file)).plan
  {
    reply := store.PostPlan(body);
    read := store.GetPlan();
  }
}
