/** The AI service's prompt assembly (`FreeChatbot.chat` up to the model call): a
    context string grown section by section from the CRM data the backend sends, then
    wrapped with the user's question and the instruction to answer in French. */
module Chatbot {
  import opened Common
  import opened Text

  // ----- the CRM data record -----

  /** A scalar JSON value as Python holds it after decoding. */
  datatype PyValue = PyNone | PyInt(i: int) | PyStr(s: string) | PyBool(b: bool)

  /** A decoded JSON object whose values are scalars. */
  type Dict = map<string, PyValue>

  /** The value under `clients` or `contracts`: a list of objects, or anything else. */
  datatype Listing = NotAList | AList(items: seq<Dict>)

  /** The `crm_data` object: each of the three keys the assistant reads may be absent.
      Other keys are never read. */
  datatype CrmData = CrmData(stats: Option<Dict>, clients: Option<Listing>, contracts: Option<Listing>)

  /** `f"{v}"`: Python's `str` of a scalar. */
  function Show(v: PyValue): string {
    match v
    case PyNone => "None"
    case PyInt(i) => IntToString(i)
    case PyStr(s) => s
    case PyBool(b) => if b then "True" else "False"
  }

  /** `d.get(key, default)`: the default only when the key is absent; a key holding
      `None` gives `None`. */
  function Get(d: Dict, key: string, default: PyValue): PyValue {
    if key in d then d[key] else default
  }

  /** A non-negative integer prints as the decimal digits of its value. */
  lemma ShowReadsBack(n: nat)
    ensures AllDigits(Show(PyInt(n))) && DigitsValue(Show(PyInt(n))) == n
  {
    NatToStringRoundTrip(n);
  }

  /** Two integers print alike only when they are equal. */
  lemma ShowTellsIntsApart(a: int, b: int)
    ensures Show(PyInt(a)) == Show(PyInt(b)) ==> a == b
  {
    IntToStringInjective(a, b);
  }

  /** `get` after a store: the stored key gives the stored value, whatever the
      default, and every other key gives what it gave before; an empty dictionary
      gives the default. */
  lemma GetAfterStore(d: Dict, key: string, other: string, v: PyValue, default: PyValue)
    ensures Get(d[key := v], key, default) == v
    ensures other != key ==> Get(d[key := v], other, default) == Get(d, other, default)
    ensures Get(map[], key, default) == default
  {
  }

  // ----- the sections -----

  const Header := "Tu es un assistant CRM intelligent.\n\n"
  const StatsHeading := "\U{1F4CA} STATISTIQUES CRM:\n"
  const ClientsHeading := "\U{1F465} CLIENTS:\n"
  const ContractsHeading := "\U{1F4C4} CONTRATS:\n"
  const QuestionLead := "\n\nQuestion de l'utilisateur: "
  const Instruction := "\n\nR\U{E9}ponds de mani\U{E8}re claire, professionnelle et en fran\U{E7}ais. Utilise les donn\U{E9}es CRM ci-dessus pour r\U{E9}pondre pr\U{E9}cis\U{E9}ment.\n\nR\U{E9}ponse:"

  /** The statistics block; a missing count or revenue prints as 0. */
  function StatsBlock(stats: Dict): string {
    StatsHeading + StatsLines(stats)
  }

  function StatsLines(stats: Dict): string {
    "- Clients: " + Show(Get(stats, "clientCount", PyInt(0)))
    + "\n- Contrats: " + Show(Get(stats, "contractCount", PyInt(0)))
    + "\n- Revenu total: " + Show(Get(stats, "revenue", PyInt(0))) + "\U{20AC}\n\n"
  }

  /** One client line: name and e-mail, `N/A` for a missing key. */
  function ClientLine(client: Dict): string {
    "- " + Show(Get(client, "name", PyStr("N/A"))) + " (" + Show(Get(client, "email", PyStr("N/A"))) + ")\n"
  }

  /** One contract line: id and status default to `N/A`, the amount (key `montant`)
      to 0. */
  function ContractLine(contract: Dict): string {
    "- Contrat #" + Show(Get(contract, "id", PyStr("N/A")))
    + " - " + Show(Get(contract, "montant", PyInt(0)))
    + "\U{20AC} - Statut: " + Show(Get(contract, "status", PyStr("N/A"))) + "\n"
  }

  /** `items[:5]`. */
  function FirstFive(items: seq<Dict>): (r: seq<Dict>)
    ensures |r| <= 5 && |r| <= |items| && r == items[..|r|]
    ensures |items| >= 5 ==> |r| == 5
    ensures |items| < 5 ==> r == items
  {
    if |items| <= 5 then items else items[..5]
  }

  /** The lines of `items`, in order. */
  function Lines(items: seq<Dict>, line: Dict -> string): string
    decreases |items|
  {
    if items == [] then "" else Lines(items[..|items| - 1], line) + line(items[|items| - 1])
  }

  /** A listing prints only when it is a non-empty list. */
  predicate Printed(listing: Option<Listing>) {
    listing.Some? && listing.value.AList? && |listing.value.items| > 0
  }

  /** A list section: its heading, the lines of at most five entries, a blank line. */
  function ListSection(listing: Option<Listing>, heading: string, line: Dict -> string): string {
    if Printed(listing) then heading + (Lines(FirstFive(listing.value.items), line) + "\n") else ""
  }

  function StatsPart(crm: CrmData): string {
    if crm.stats.Some? then StatsBlock(crm.stats.value) else ""
  }

  function ClientsPart(crm: CrmData): string {
    ListSection(crm.clients, ClientsHeading, ClientLine)
  }

  function ContractsPart(crm: CrmData): string {
    ListSection(crm.contracts, ContractsHeading, ContractLine)
  }

  /** The context the prompt is built on; `None` is a missing `crm_data`. */
  function Context(crmData: Option<CrmData>): string {
    if crmData.None? then Header
    else Header + StatsPart(crmData.value) + ClientsPart(crmData.value) + ContractsPart(crmData.value)
  }

  /** The prompt handed to the language model. */
  function Prompt(context: string, message: string): string {
    context + QuestionLead + message + Instruction
  }

  // ----- the assembly as the service performs it -----

  /** Grows the context with `+=`, one section at a time. */
  method BuildContext(crmData: Option<CrmData>) returns (context: string)
    ensures context == Context(crmData)
  {
    context := Header;
    if crmData.Some? {
      var crm := crmData.value;
      if crm.stats.Some? {
        context := context + StatsBlock(crm.stats.value);
      }
      context := AppendSection(context, crm.clients, ClientsHeading, ClientLine);
      context := AppendSection(context, crm.contracts, ContractsHeading, ContractLine);
    }
  }

  /** One list section: the heading, then a line per entry of `listing[:5]`, then a
      blank line, all only for a non-empty list. */
  method AppendSection(context: string, listing: Option<Listing>, heading: string, line: Dict -> string)
    returns (r: string)
    ensures r == context + ListSection(listing, heading, line)
  {
    r := context;
    if Printed(listing) {
      var shown := FirstFive(listing.value.items);
      r := r + heading;
      assert shown[..0] == [];
      var i := 0;
      while i < |shown|
        invariant 0 <= i <= |shown|
        invariant r == context + heading + Lines(shown[..i], line)
      {
        ghost var done := Lines(shown[..i], line);
        assert shown[..i + 1][..i] == shown[..i];
        assert Lines(shown[..i + 1], line) == done + line(shown[i]);
        assert (context + heading + done) + line(shown[i]) == context + heading + (done + line(shown[i]));
        r := r + line(shown[i]);
        i := i + 1;
      }
      assert shown[..i] == shown;
      r := r + "\n";
    }
  }

  /** `chat` up to the model call: the prompt for `message` over `crmData`. */
  method BuildPrompt(message: string, crmData: Option<CrmData>) returns (prompt: string)
    ensures prompt == Prompt(Context(crmData), message)
  {
    var context := BuildContext(crmData);
    prompt := context + QuestionLead + message + Instruction;
  }

  // ----- properties -----

  /** Without CRM data, or with none of the three sections printable, the context is
      the header and its blank line alone; any printable section makes it longer. */
  lemma HeaderOnly(crmData: Option<CrmData>)
    ensures Context(crmData) == Header <==>
      crmData.None? ||
      (crmData.value.stats.None? && !Printed(crmData.value.clients) && !Printed(crmData.value.contracts))
  {
    if crmData.Some? {
      var crm := crmData.value;
      assert |Context(crmData)| == |Header| + |StatsPart(crm)| + |ClientsPart(crm)| + |ContractsPart(crm)|;
      if crm.stats.Some? {
        assert |StatsPart(crm)| >= |StatsHeading| > 0;
      }
      if Printed(crm.clients) {
        assert |ClientsPart(crm)| >= |ClientsHeading| > 0;
      }
      if Printed(crm.contracts) {
        assert |ContractsPart(crm)| >= |ContractsHeading| > 0;
      }
    }
  }

  /** The characters that open the three sections. */
  lemma SectionOpeners(crm: CrmData)
    ensures StatsPart(crm) != "" <==> crm.stats.Some?
    ensures crm.stats.Some? ==> StatsPart(crm)[..|StatsHeading|] == StatsHeading
    ensures ClientsPart(crm) != "" <==> Printed(crm.clients)
    ensures Printed(crm.clients) ==> ClientsPart(crm)[..|ClientsHeading|] == ClientsHeading
    ensures ContractsPart(crm) != "" <==> Printed(crm.contracts)
    ensures Printed(crm.contracts) ==> ContractsPart(crm)[..|ContractsHeading|] == ContractsHeading
  {
  }

  /** Right after the header comes the statistics block exactly when `stats` is
      present: every other section opens with a different character. */
  lemma StatsFirstIffPresent(crm: CrmData)
    requires crm.stats.Some? || Printed(crm.clients) || Printed(crm.contracts)
    ensures Context(Some(crm))[|Header|] == StatsHeading[0] <==> crm.stats.Some?
  {
    SectionOpeners(crm);
    var st, cl, co := StatsPart(crm), ClientsPart(crm), ContractsPart(crm);
    FirstAfter(Header, st, cl, co);
    assert StatsHeading[0] == '\U{1F4CA}' && ClientsHeading[0] == '\U{1F465}' && ContractsHeading[0] == '\U{1F4C4}';
    if crm.stats.Some? {
      assert st[0] == st[..|StatsHeading|][0];
    } else if Printed(crm.clients) {
      assert cl[0] == cl[..|ClientsHeading|][0];
    } else {
      assert co[0] == co[..|ContractsHeading|][0];
    }
  }

  /** The character after `h` in `h + a + b + c` opens the first non-empty part. */
  lemma FirstAfter(h: string, a: string, b: string, c: string)
    requires a != [] || b != [] || c != []
    ensures (h + a + b + c)[|h|] == if a != [] then a[0] else if b != [] then b[0] else c[0]
  {
    assert h + a + b + c == h + (a + b + c);
  }

  /** Where the four parts of `h + a + b + c` sit. */
  lemma Pieces(h: string, a: string, b: string, c: string)
    ensures var s := h + a + b + c;
      && s[..|h|] == h && s[|h|..|h| + |a|] == a
      && s[|h| + |a|..|h| + |a| + |b|] == b && s[|h| + |a| + |b|..] == c
  {
    var s := h + a + b + c;
    assert s == h + (a + (b + c));
    assert s[|h|..] == a + (b + c);
    assert s[|h| + |a|..] == b + c;
  }

  /** A prefix of a part is found at the same offset in the whole. */
  lemma PrefixAt(s: string, i: nat, part: string, prefix: string)
    requires i + |part| <= |s| && s[i..i + |part|] == part
    requires |prefix| <= |part| && part[..|prefix|] == prefix
    ensures s[i..i + |prefix|] == prefix
  {
    assert s[i..i + |prefix|] == s[i..i + |part|][..|prefix|];
  }

  /** Sections come in the order statistics, clients, contracts, whichever of them
      print: each printed heading sits where the sections before it end, a section
      that does not print taking no room. */
  lemma SectionOrder(crm: CrmData)
    ensures var c := Context(Some(crm));
      var s, k := |Header| + |StatsPart(crm)|, |Header| + |StatsPart(crm)| + |ClientsPart(crm)|;
      && |c| == k + |ContractsPart(crm)|
      && (crm.stats.Some? ==> c[|Header|..|Header| + |StatsHeading|] == StatsHeading)
      && (Printed(crm.clients) ==> c[s..s + |ClientsHeading|] == ClientsHeading)
      && (Printed(crm.contracts) ==> c[k..k + |ContractsHeading|] == ContractsHeading)
  {
    SectionOpeners(crm);
    GuardedPieces(Header, StatsPart(crm), ClientsPart(crm), ContractsPart(crm),
      StatsHeading, ClientsHeading, ContractsHeading,
      crm.stats.Some?, Printed(crm.clients), Printed(crm.contracts));
  }

  /** In `h + a + b + c`, a prefix of each part, where it has one, sits where that
      part begins. */
  lemma GuardedPieces(h: string, a: string, b: string, c: string, pa: string, pb: string, pc: string,
                      qa: bool, qb: bool, qc: bool)
    requires qa ==> |pa| <= |a| && a[..|pa|] == pa
    requires qb ==> |pb| <= |b| && b[..|pb|] == pb
    requires qc ==> |pc| <= |c| && c[..|pc|] == pc
    ensures var s := h + a + b + c;
      && |s| == |h| + |a| + |b| + |c|
      && (qa ==> s[|h|..|h| + |pa|] == pa)
      && (qb ==> s[|h| + |a|..|h| + |a| + |pb|] == pb)
      && (qc ==> s[|h| + |a| + |b|..|h| + |a| + |b| + |pc|] == pc)
  {
    var s := h + a + b + c;
    Pieces(h, a, b, c);
    if qa {
      PrefixAt(s, |h|, a, pa);
    }
    if qb {
      PrefixAt(s, |h| + |a|, b, pb);
    }
    if qc {
      assert s[|h| + |a| + |b|..|h| + |a| + |b| + |c|] == c;
      PrefixAt(s, |h| + |a| + |b|, c, pc);
    }
  }

  /** A missing count, contract count or revenue prints as 0. */
  lemma StatsDefaults()
    ensures StatsBlock(map[]) ==
      StatsHeading + "- Clients: " + "0" + "\n- Contrats: " + "0" + "\n- Revenu total: " + "0" + "\U{20AC}\n\n"
  {
    assert Show(PyInt(0)) == "0" by { assert NatToString(0) == "0"; }
  }

  /** Keys other than `clientCount`, `contractCount` and `revenue` do not change the
      statistics block. */
  lemma StatsReadsThreeKeys(stats: Dict, key: string, v: PyValue)
    requires key != "clientCount" && key != "contractCount" && key != "revenue"
    ensures StatsBlock(stats[key := v]) == StatsBlock(stats)
  {
  }

  /** A client without name or e-mail prints `N/A` for each; present string values
      print as they are, and a key holding `None` prints `None`. */
  lemma ClientLineDefaults(name: string, email: string)
    ensures ClientLine(map[]) == "- N/A (N/A)\n"
    ensures ClientLine(map["name" := PyStr(name), "email" := PyStr(email)]) == "- " + name + " (" + email + ")\n"
    ensures ClientLine(map["name" := PyNone]) == "- None (N/A)\n"
  {
    assert "email" != "name" by { assert "email"[0] != "name"[0]; }
    assert Get(map[], "name", PyStr("N/A")) == PyStr("N/A");
    assert Get(map[], "email", PyStr("N/A")) == PyStr("N/A");
    var named := map["name" := PyStr(name), "email" := PyStr(email)];
    assert Get(named, "name", PyStr("N/A")) == PyStr(name);
    assert Get(named, "email", PyStr("N/A")) == PyStr(email);
    assert Get(map["name" := PyNone], "name", PyStr("N/A")) == PyNone;
    assert Get(map["name" := PyNone], "email", PyStr("N/A")) == PyStr("N/A");
  }

  /** Keys other than `name` and `email` do not change a client line. */
  lemma ClientLineReadsTwoKeys(client: Dict, key: string, v: PyValue)
    requires key != "name" && key != "email"
    ensures ClientLine(client[key := v]) == ClientLine(client)
  {
  }

  /** A contract without keys prints id and status `N/A` and amount 0. */
  lemma ContractLineDefaults()
    ensures ContractLine(map[]) == "- Contrat #N/A - 0\U{20AC} - Statut: N/A\n"
  {
    assert Show(PyInt(0)) == "0" by { assert NatToString(0) == "0"; }
  }

  /** Keys other than `id`, `montant` and `status` do not change a contract line: an
      `amount` key, say, never shows. */
  lemma ContractLineReadsThreeKeys(contract: Dict, key: string, v: PyValue)
    requires key != "id" && key != "montant" && key != "status"
    ensures ContractLine(contract[key := v]) == ContractLine(contract)
  {
  }

  /** Lines of a concatenation are the lines of each part, in order. */
  lemma {:induction false} LinesConcat(a: seq<Dict>, b: seq<Dict>, line: Dict -> string)
    ensures Lines(a + b, line) == Lines(a, line) + Lines(b, line)
    decreases |b|
  {
    if b == [] {
      assert a + b == a;
    } else {
      var b' := b[..|b| - 1];
      assert (a + b)[..|a + b| - 1] == a + b';
      LinesConcat(a, b', line);
    }
  }

  /** A list section shows its first min(5, n) entries, one line each, in order. */
  lemma {:induction false} ListSectionShowsFirstFive(items: seq<Dict>, heading: string, line: Dict -> string)
    requires |items| > 0
    ensures var n := if |items| < 5 then |items| else 5;
      && ListSection(Some(AList(items)), heading, line) == heading + Lines(items[..n], line) + "\n"
      && (forall m :: m >= n && m <= |items| ==>
            ListSection(Some(AList(items[..m])), heading, line) == ListSection(Some(AList(items)), heading, line))
  {
    var n := if |items| < 5 then |items| else 5;
    assert FirstFive(items) == items[..n];
    forall m | m >= n && m <= |items|
      ensures ListSection(Some(AList(items[..m])), heading, line) == ListSection(Some(AList(items)), heading, line)
    {
      assert items[..m][..n] == items[..n];
      assert FirstFive(items[..m]) == items[..n];
    }
  }

  /** A listing that is not a list, or an empty list, prints nothing. */
  lemma ListSectionSkipped(heading: string, line: Dict -> string)
    ensures ListSection(None, heading, line) == ""
    ensures ListSection(Some(NotAList), heading, line) == ""
    ensures ListSection(Some(AList([])), heading, line) == ""
  {
  }

  /** A sixth client or contract never reaches the context. */
  lemma SixthEntryIgnored(crm: CrmData, extra: Dict)
    requires crm.clients.Some? && crm.clients.value.AList? && |crm.clients.value.items| == 5
    ensures var more := crm.(clients := Some(AList(crm.clients.value.items + [extra])));
      Context(Some(more)) == Context(Some(crm))
  {
    var items := crm.clients.value.items;
    assert FirstFive(items + [extra]) == items;
  }

  /** The prompt opens with the context, carries the question after its lead-in and
      closes with `Réponse:`; the question can be read back from it. */
  lemma PromptShape(context: string, message: string)
    ensures var p := Prompt(context, message);
      && p[..|context|] == context
      && p[|context|..|context| + |QuestionLead|] == QuestionLead
      && p[|context| + |QuestionLead|..|p| - |Instruction|] == message
      && p[|p| - |Instruction|..] == Instruction
      && p[|p| - 8..] == "R\U{E9}ponse:"
  {
    var p := Prompt(context, message);
    assert p == context + QuestionLead + message + Instruction;
    assert p[|p| - |Instruction|..] == Instruction;
    assert Instruction[|Instruction| - 8..] == "R\U{E9}ponse:";
  }

  /** Different questions over the same context give different prompts. */
  lemma PromptInjective(context: string, m1: string, m2: string)
    ensures Prompt(context, m1) == Prompt(context, m2) ==> m1 == m2
  {
    if Prompt(context, m1) == Prompt(context, m2) {
      PromptShape(context, m1);
      PromptShape(context, m2);
    }
  }
}
