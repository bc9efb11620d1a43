/** The instructions callback of the medicine helper: the text handed to the
    model is chosen by the user's role and addresses the user by name. */
module DynamicInstructions {
  import opened Strings

  /** The user record the run carries: a name and a role. */
  datatype UserContext = UserContext(name: string, role: string)

  /** The wrapper the callback receives; only its `context` is read. */
  datatype RunContext = RunContext(context: UserContext)

  // The fixed sentences after the greeting, as lists of the pieces they are
  // concatenated from.

  const AdminPieces: seq<string> :=
    ["Provide detailed, ", "technical", " responses with a ", "formal tone", "."]
  const RegularPieces: seq<string> :=
    ["They need guidance for ", "regular daily medicines", " (like diabetes, BP). ",
     "Explain schedule, dosage reminders, and importance in very clear, supportive tone."]
  const HeavyPieces: seq<string> :=
    ["They are prescribed strong / heavy medicines by a doctor. ",
     "Explain carefully how they must ", "follow only doctor\U{2019}s advice", ", ",
     "possible side effects", ", ",
     "and safe usage instructions in simple, reassuring tone."]
  const GuestPieces: seq<string> :=
    ["Provide short and simple answers, encouraging them to ", "consult a doctor", " if needed."]

  const AdminBrief: string := Concat(AdminPieces)
  const RegularBrief: string := Concat(RegularPieces)
  const HeavyBrief: string := Concat(HeavyPieces)
  const GuestBrief: string := Concat(GuestPieces)

  /** `generate_instructions(ctx, agent)`: an exact-match test on the role, with
      every other role treated as a guest. The agent is accepted and never read. */
  function GenerateInstructions<Agent>(ctx: RunContext, agent: Agent): string
  {
    var user := ctx.context;
    if user.role == "admin" then
      "You are assisting Admin " + user.name + ". " + AdminBrief
    else if user.role == "patient_regular" then
      "You are assisting Patient " + user.name + ". " + RegularBrief
    else if user.role == "patient_heavy" then
      "You are assisting Patient " + user.name + ". " + HeavyBrief
    else
      "You are assisting Guest " + user.name + ". " + GuestBrief
  }

  // ---------------------------------------------------------------------------
  // The same choice as a table: the title the user is greeted with and the
  // brief that follows, per recognised role, with the guest entry as default
  // ---------------------------------------------------------------------------

  datatype Entry = Entry(title: string, brief: string)

  const RoleTable: map<string, Entry> := map[
    "admin" := Entry("Admin", AdminBrief),
    "patient_regular" := Entry("Patient", RegularBrief),
    "patient_heavy" := Entry("Patient", HeavyBrief)
  ]

  const GuestEntry: Entry := Entry("Guest", GuestBrief)

  function EntryFor(role: string): Entry
  {
    if role in RoleTable then RoleTable[role] else GuestEntry
  }

  /** The greeting in front of the name. */
  function Greeting(entry: Entry): string
  {
    "You are assisting " + entry.title + " "
  }

  /** The greeting, the name, then the brief. */
  function Render(entry: Entry, name: string): string
  {
    Greeting(entry) + name + ". " + entry.brief
  }

  /** The if/elif chain is the table lookup with the guest entry as default. */
  lemma GenerateInstructionsIsTableLookup<Agent>(ctx: RunContext, agent: Agent)
    ensures GenerateInstructions(ctx, agent) == Render(EntryFor(ctx.context.role), ctx.context.name)
  {
    var user := ctx.context;
    GreetingsAsWritten();
    if user.role == "admin" {
      assert EntryFor(user.role) == Entry("Admin", AdminBrief);
    } else if user.role == "patient_regular" {
      assert EntryFor(user.role) == Entry("Patient", RegularBrief);
    } else if user.role == "patient_heavy" {
      assert EntryFor(user.role) == Entry("Patient", HeavyBrief);
    } else {
      assert user.role !in RoleTable;
    }
  }

  /** The greetings the table builds are the ones the program writes out. */
  lemma GreetingsAsWritten()
    ensures Greeting(Entry("Admin", AdminBrief)) == "You are assisting Admin "
    ensures Greeting(Entry("Patient", RegularBrief)) == "You are assisting Patient "
    ensures Greeting(Entry("Patient", HeavyBrief)) == "You are assisting Patient "
    ensures Greeting(GuestEntry) == "You are assisting Guest "
  {
  }

  // ---------------------------------------------------------------------------
  // Properties
  // ---------------------------------------------------------------------------

  /** The text depends on the context only: the agent argument is ignored. */
  lemma AgentIsIgnored<Agent>(ctx: RunContext, a: Agent, b: Agent)
    ensures GenerateInstructions(ctx, a) == GenerateInstructions(ctx, b)
  {
  }

  /** A rendered text starts with the greeting and the name, and contains
      whatever its brief contains. */
  lemma RenderShape(entry: Entry, name: string, t: string)
    requires Contains(entry.brief, t)
    ensures StartsWith(Render(entry, name), Greeting(entry) + name + ". ")
    ensures Contains(Render(entry, name), t)
  {
    StartsWithAppend(Greeting(entry) + name + ". ", entry.brief);
    ContainsAfterPrefix(Greeting(entry) + name + ". ", entry.brief, t);
  }

  /** An administrator is greeted by title and name and asked for formal, technical answers. */
  lemma AdminInstructions<Agent>(name: string, agent: Agent)
    ensures var text := GenerateInstructions(RunContext(UserContext(name, "admin")), agent);
      StartsWith(text, "You are assisting Admin " + name + ". ") &&
      Contains(text, "technical") && Contains(text, "formal tone")
  {
    var entry := Entry("Admin", AdminBrief);
    assert Greeting(entry) == "You are assisting Admin ";
    ContainsChunk(AdminPieces, 1);
    ContainsChunk(AdminPieces, 3);
    RenderShape(entry, name, "technical");
    RenderShape(entry, name, "formal tone");
  }

  /** A regular patient is greeted as a patient and told about daily medicines. */
  lemma RegularPatientInstructions<Agent>(name: string, agent: Agent)
    ensures var text := GenerateInstructions(RunContext(UserContext(name, "patient_regular")), agent);
      StartsWith(text, "You are assisting Patient " + name + ". ") && Contains(text, "regular daily medicines")
  {
    var entry := Entry("Patient", RegularBrief);
    assert Greeting(entry) == "You are assisting Patient ";
    ContainsChunk(RegularPieces, 1);
    RenderShape(entry, name, "regular daily medicines");
  }

  /** A patient on heavy medicines is greeted as a patient and told to follow
      only the doctor's advice and about possible side effects. */
  lemma HeavyPatientInstructions<Agent>(name: string, agent: Agent)
    ensures var text := GenerateInstructions(RunContext(UserContext(name, "patient_heavy")), agent);
      StartsWith(text, "You are assisting Patient " + name + ". ") &&
      Contains(text, "follow only doctor\U{2019}s advice") && Contains(text, "possible side effects")
  {
    var entry := Entry("Patient", HeavyBrief);
    assert Greeting(entry) == "You are assisting Patient ";
    ContainsChunk(HeavyPieces, 2);
    ContainsChunk(HeavyPieces, 4);
    RenderShape(entry, name, "follow only doctor\U{2019}s advice");
    RenderShape(entry, name, "possible side effects");
  }

  /** A guest is greeted as a guest and pointed to a doctor. */
  lemma GuestInstructions<Agent>(name: string, agent: Agent)
    ensures var text := GenerateInstructions(RunContext(UserContext(name, "guest")), agent);
      StartsWith(text, "You are assisting Guest " + name + ". ") && Contains(text, "consult a doctor")
  {
    var entry := GuestEntry;
    assert Greeting(entry) == "You are assisting Guest ";
    ContainsChunk(GuestPieces, 1);
    RenderShape(entry, name, "consult a doctor");
  }

  /** Every role other than the three named ones, whatever its spelling, gets
      exactly the guest text. */
  lemma UnknownRoleIsGuest<Agent>(name: string, role: string, agent: Agent)
    requires role != "admin" && role != "patient_regular" && role != "patient_heavy"
    ensures GenerateInstructions(RunContext(UserContext(name, role)), agent)
         == GenerateInstructions(RunContext(UserContext(name, "guest")), agent)
  {
  }

  /** Role matching is exact: a capitalised "Admin" is a guest. */
  lemma CapitalisedAdminIsGuest<Agent>(name: string, agent: Agent)
    ensures GenerateInstructions(RunContext(UserContext(name, "Admin")), agent)
         == "You are assisting Guest " + name + ". " + GuestBrief
  {
    assert "Admin" != "admin";
  }

  /** The name sits verbatim between a greeting and a brief that only the role decides. */
  lemma RenderAroundName(entry: Entry, name: string)
    ensures Render(entry, name) == Greeting(entry) + name + (". " + entry.brief)
  {
  }

  /** The text always contains the name, and two users with the same role get
      texts that differ only in the name. */
  lemma NameIsInsertedVerbatim<Agent>(role: string, name: string, other: string, agent: Agent)
    ensures exists before, after ::
      GenerateInstructions(RunContext(UserContext(name, role)), agent) == before + name + after &&
      GenerateInstructions(RunContext(UserContext(other, role)), agent) == before + other + after
    ensures Contains(GenerateInstructions(RunContext(UserContext(name, role)), agent), name)
  {
    var entry := EntryFor(role);
    GenerateInstructionsIsTableLookup(RunContext(UserContext(name, role)), agent);
    GenerateInstructionsIsTableLookup(RunContext(UserContext(other, role)), agent);
    RenderAroundName(entry, name);
    RenderAroundName(entry, other);
    ContainsInfix(Greeting(entry), name, ". " + entry.brief);
  }
}
