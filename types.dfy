/** The records the services and screens exchange. Optional fields are
    `Option`s; display-only fields no modelled operation reads (image and
    video URLs, thumbnails, descriptions of modules, message timestamps)
    are omitted. */
module Types {
  import opened Text

  /** JavaScript truthiness of an optional string: present and non-empty. */
  predicate Truthy(o: Option<string>)
  {
    o.Some? && o.value != ""
  }

  datatype Frequency = Daily | Weekly | Custom

  datatype Habit = Habit(
    id: string,
    title: string,
    description: Option<string>,
    isCustom: bool,
    subModuleId: Option<string>,
    moduleId: Option<string>,
    frequency: Frequency,
    days: Option<seq<string>>,
    timeOfDay: Option<string>,
    notificationEnabled: Option<bool>,
    completedDates: Option<seq<string>>,
    duration: Option<string>)

  datatype Sender = User | Bot

  datatype ChatMessage = ChatMessage(id: string, sender: Sender, text: string)

  datatype HistoryRecord = HistoryRecord(
    id: string,
    date: string,
    title: string,
    summary: string,
    themes: seq<string>,
    emotions: seq<string>,
    actions: seq<string>,
    transcript: seq<ChatMessage>)

  datatype ModuleStep = ModuleStep(title: string, content: string, audioUrl: Option<string>)

  datatype SubModuleType = Knowledge | Practice | Technique

  datatype SubModule = SubModule(
    id: string,
    title: string,
    kind: SubModuleType,
    step: ModuleStep,
    reflectionPrompt: Option<string>,
    duration: Option<string>,
    botId: Option<string>,
    spaceId: Option<string>)

  datatype Category = Understanding | Triggers | Coping

  datatype Module = Module(
    id: string,
    category: Category,
    title: string,
    steps: seq<ModuleStep>,
    subModules: Option<seq<SubModule>>,
    reflectionPrompt: string,
    botId: Option<string>,
    spaceId: Option<string>)
}
