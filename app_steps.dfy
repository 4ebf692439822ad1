/** The guide steps of the check-in wizard: the built-in step list of each
    interface language, the normalisation applied to a stored step list, the
    built-in fallback content of each step and the completion-page template. */
module AppSteps {
  import opened Prelude

  datatype StepKind = Builtin | Custom

  /** A normalised step, as the wizard shows it and the admin page edits it. */
  datatype Step = Step(id: string, title: string, subtitle: string, enabled: bool, kind: StepKind, content: string)

  /** A step as read back from storage. A missing or falsy text field is "",
      a missing or non-boolean `enabled` is `None`, and `kind` is the raw
      `type` text. */
  datatype RawStep = RawStep(id: string, title: string, subtitle: string, enabled: Option<bool>, kind: string, content: string)

  /** One row of a language's built-in step list. */
  datatype StepText = StepText(id: string, title: string, subtitle: string)

  const DefaultLang: string := "jp"

  /** The ids of the built-in steps, in wizard order. */
  const StepIds: seq<string> :=
    ["welcome", "count", "registration", "emergency", "child", "outdoor", "water", "trash", "laundry", "rules"]

  /** The built-in steps, by the id each has in every language. */
  datatype BuiltinStep = Welcome | Count | Registration | Emergency | Child | Outdoor | Water | Trash | Laundry | Rules

  function BuiltinName(b: BuiltinStep): string {
    match b
    case Welcome => "welcome"
    case Count => "count"
    case Registration => "registration"
    case Emergency => "emergency"
    case Child => "child"
    case Outdoor => "outdoor"
    case Water => "water"
    case Trash => "trash"
    case Laundry => "laundry"
    case Rules => "rules"
  }

  /** The built-in step a key names, if any (a property lookup by key). */
  function BuiltinOf(id: string): (r: Option<BuiltinStep>)
    ensures r.Some? ==> BuiltinName(r.value) == id
  {
    if id == "welcome" then Some(Welcome)
    else if id == "count" then Some(Count)
    else if id == "registration" then Some(Registration)
    else if id == "emergency" then Some(Emergency)
    else if id == "child" then Some(Child)
    else if id == "outdoor" then Some(Outdoor)
    else if id == "water" then Some(Water)
    else if id == "trash" then Some(Trash)
    else if id == "laundry" then Some(Laundry)
    else if id == "rules" then Some(Rules)
    else None
  }

  /** Every built-in step is found by its id, and only by it. */
  lemma BuiltinOfName(b: BuiltinStep)
    ensures BuiltinOf(BuiltinName(b)) == Some(b)
  {
    match b
    case Welcome =>
    case Count =>
    case Registration =>
    case Emergency =>
    case Child =>
    case Outdoor =>
    case Water =>
    case Trash =>
    case Laundry =>
    case Rules =>
  }

  /** The `zh-hans` step list. */
  const ZhHansSteps: seq<StepText> := [
    StepText("welcome", "欢迎入住", "Welcome"),
    StepText("count", "入住人数", "Guest Count"),
    StepText("registration", "住客信息登记", "Osaka Regulation"),
    StepText("emergency", "安全与紧急应对", "Safety First"),
    StepText("child", "婴儿与儿童安全", "Child Protection"),
    StepText("outdoor", "户外边界警告", "Outdoor Safety"),
    StepText("water", "空气能热水器 (EcoCute)", "Hot Water System"),
    StepText("trash", "垃圾分类指南", "Waste Management"),
    StepText("laundry", "洗烘一体机使用", "Laundry Guide"),
    StepText("rules", "邻里礼仪与管理", "Etiquette")
  ]

  /** The `zh-hant` step list. */
  const ZhHantSteps: seq<StepText> := [
    StepText("welcome", "歡迎入住", "Welcome"),
    StepText("count", "入住人數", "Guest Count"),
    StepText("registration", "住客資訊登記", "Osaka Regulation"),
    StepText("emergency", "安全與緊急應對", "Safety First"),
    StepText("child", "嬰兒與兒童安全", "Child Protection"),
    StepText("outdoor", "戶外邊界警告", "Outdoor Safety"),
    StepText("water", "空氣能熱水器 (EcoCute)", "Hot Water System"),
    StepText("trash", "垃圾分類指南", "Waste Management"),
    StepText("laundry", "洗烘一體機使用", "Laundry Guide"),
    StepText("rules", "鄰里禮儀與管理", "Etiquette")
  ]

  /** The `en` step list. */
  const EnSteps: seq<StepText> := [
    StepText("welcome", "Welcome", "Welcome"),
    StepText("count", "Guest Count", "Guest Count"),
    StepText("registration", "Registration", "Osaka Regulation"),
    StepText("emergency", "Emergency", "Safety First"),
    StepText("child", "Child Safety", "Child Protection"),
    StepText("outdoor", "Outdoor Warning", "Outdoor Safety"),
    StepText("water", "Hot Water System", "EcoCute"),
    StepText("trash", "Waste Guide", "Waste Management"),
    StepText("laundry", "Laundry", "Laundry Guide"),
    StepText("rules", "Etiquette", "Etiquette")
  ]

  /** The `jp` step list. */
  const JpSteps: seq<StepText> := [
    StepText("welcome", "ようこそ", "Welcome"),
    StepText("count", "人数", "Guest Count"),
    StepText("registration", "登録", "Osaka Regulation"),
    StepText("emergency", "緊急", "Safety First"),
    StepText("child", "子どもの安全", "Child Protection"),
    StepText("outdoor", "屋外注意", "Outdoor Safety"),
    StepText("water", "給湯システム", "EcoCute"),
    StepText("trash", "ゴミ分別", "Waste Management"),
    StepText("laundry", "洗濯", "Laundry Guide"),
    StepText("rules", "マナー", "Etiquette")
  ]

  /** The `ko` step list. */
  const KoSteps: seq<StepText> := [
    StepText("welcome", "환영", "Welcome"),
    StepText("count", "인원 수", "Guest Count"),
    StepText("registration", "등록", "Osaka Regulation"),
    StepText("emergency", "긴급", "Safety First"),
    StepText("child", "아동 안전", "Child Protection"),
    StepText("outdoor", "야외 경고", "Outdoor Safety"),
    StepText("water", "온수 시스템", "EcoCute"),
    StepText("trash", "쓰레기 분리", "Waste Management"),
    StepText("laundry", "세탁", "Laundry Guide"),
    StepText("rules", "에티켓", "Etiquette")
  ]

  /** The `zh-hans` fallback content of the built-in steps. */
  function ZhHansFallback(b: BuiltinStep): string {
    match b
    case Welcome => "<p>尊贵的客人，欢迎您选择入住。为确保您充分享受这里的宁静与便利，并保障所有住客安全，请逐页阅读本指南。</p>"
    case Emergency => "<p><strong>紧急电话：</strong>火警/急救 119，警察 110。</p><p>请优先拨打紧急电话，在确保自身安全后再联系管理方。</p><p>日本电压为 100V，请避免同时开启多个大功率电器以防跳闸。</p>"
    case Child => "<p><strong>儿童安全提醒</strong></p><ul><li>窗边、楼梯等区域请勿让儿童单独停留。</li><li>浴室地面湿滑，请看护儿童防止跌倒。</li><li>滚筒洗衣机存在窒息风险，平时请保持舱门关闭。</li></ul>"
    case Outdoor => "<p><strong>户外安全提醒</strong></p><ul><li>夜间出入请注意周边道路与边界区域。</li><li>车库及坡道附近地面高低差较大，请慢行。</li></ul>"
    case Water => "<p><strong>热水系统（EcoCute）说明</strong></p><ul><li>多人连续使用后热水可能暂时不足，请等待系统加热。</li><li>如无热水，可尝试重置设备或联系管理方。</li></ul>"
    case Trash => "<p><strong>垃圾分类</strong></p><ul><li>可燃垃圾：厨余、纸屑、塑料袋、PET 瓶及瓶盖等。</li><li>资源垃圾：瓶/罐按分类放入容器，满后请打包放置到指定位置。</li></ul>"
    case Laundry => "<p><strong>Iris Ohyama 洗烘一体机快速步骤</strong></p><ol><li>放入衣物并关门</li><li>加入洗涤剂</li><li>选择洗濯/乾燥模式</li><li>按下开始（スタート）</li></ol>"
    case Rules => "<p><strong>邻里礼仪与管理规则</strong></p><ul><li>管理人可能因巡查进入公用空间，进入前会先打招呼。</li><li>22:00 后请保持室内外安静，避免影响邻居。</li><li>请爱护房屋设施，并在规定时间完成退房。</li></ul>"
    case Count | Registration => ""
  }

  /** The `zh-hant` fallback content of the built-in steps. */
  function ZhHantFallback(b: BuiltinStep): string {
    match b
    case Welcome => "<p>尊貴的客人，歡迎您選擇入住。為確保您享受寧靜與便利，並保障所有住客安全，請逐頁閱讀本指南。</p>"
    case Emergency => "<p><strong>緊急電話：</strong>火警/急救 119，警察 110。</p><p>請先撥打緊急電話，確保安全後再聯絡管理方。</p><p>日本電壓為 100V，請避免同時使用多個高功率電器。</p>"
    case Child => "<p><strong>兒童安全提醒</strong></p><ul><li>請勿讓兒童獨自在窗邊或樓梯附近活動。</li><li>浴室地面濕滑，請加強看護。</li><li>滾筒洗衣機有窒息風險，請保持艙門關閉。</li></ul>"
    case Outdoor => "<p><strong>戶外安全提醒</strong></p><ul><li>夜間請注意周邊道路與邊界區域。</li><li>車庫與坡道有高低差，請慢行。</li></ul>"
    case Water => "<p><strong>熱水系統（EcoCute）說明</strong></p><ul><li>多人連續使用後熱水可能暫時不足，請稍候加熱。</li><li>如仍無熱水，請嘗試重置或聯絡管理方。</li></ul>"
    case Trash => "<p><strong>垃圾分類</strong></p><ul><li>可燃垃圾：廚餘、紙屑、塑膠袋、PET 瓶與瓶蓋等。</li><li>資源垃圾：瓶/罐分類投入，裝滿後移至指定處。</li></ul>"
    case Laundry => "<p><strong>Iris Ohyama 洗烘一體機快速步驟</strong></p><ol><li>放入衣物並關門</li><li>加入洗劑</li><li>選擇洗濯/乾燥模式</li><li>按下開始（スタート）</li></ol>"
    case Rules => "<p><strong>鄰里禮儀與管理規範</strong></p><ul><li>管理人巡查時可能進入公用空間，會先告知。</li><li>22:00 後請保持安靜。</li><li>請愛護屋內設備並按時退房。</li></ul>"
    case Count | Registration => ""
  }

  /** The `en` fallback content of the built-in steps. */
  function EnFallback(b: BuiltinStep): string {
    match b
    case Welcome => "<p>Welcome! To ensure a safe and comfortable stay for everyone, please review each step carefully.</p>"
    case Emergency => "<p><strong>Emergency numbers:</strong> Fire/Ambulance 119, Police 110.</p><p>Call emergency services first, then contact management.</p><p>Japan uses 100V power. Avoid running multiple high-power appliances at once.</p>"
    case Child => "<p><strong>Child safety</strong></p><ul><li>Do not leave children unattended near windows or stairs.</li><li>Bathroom floors can be slippery.</li><li>Keep washer door closed to avoid suffocation risk.</li></ul>"
    case Outdoor => "<p><strong>Outdoor safety</strong></p><ul><li>Be careful around slopes and boundaries, especially at night.</li><li>Watch your step around the garage area.</li></ul>"
    case Water => "<p><strong>Hot-water system (EcoCute)</strong></p><ul><li>Hot water may run low after consecutive use.</li><li>If no hot water, allow time for reheating or contact management.</li></ul>"
    case Trash => "<p><strong>Waste separation</strong></p><ul><li>Burnable: food waste, paper, plastic bags, PET bottles/caps.</li><li>Recyclables: sort bottles/cans and place them in designated bins.</li></ul>"
    case Laundry => "<p><strong>Laundry quick guide</strong></p><ol><li>Load clothes and close the door</li><li>Add detergent</li><li>Select wash/dry mode</li><li>Press Start</li></ol>"
    case Rules => "<p><strong>House rules</strong></p><ul><li>Management may enter common areas during inspection after notification.</li><li>Please keep quiet after 22:00.</li><li>Respect neighbors and take care of the facilities.</li></ul>"
    case Count | Registration => ""
  }

  /** The `jp` fallback content of the built-in steps. */
  function JpFallback(b: BuiltinStep): string {
    match b
    case Welcome => "<p>ようこそ。安全で快適なご滞在のため、各ステップの案内をご確認ください。</p>"
    case Emergency => "<p><strong>緊急連絡先：</strong>火災・救急 119、警察 110。</p><p>緊急時は先に通報し、その後管理者へ連絡してください。</p>"
    case Child => "<p><strong>お子様の安全について</strong></p><ul><li>窓辺・階段付近にお子様を一人で近づけないでください。</li><li>浴室の床は滑りやすいためご注意ください。</li></ul>"
    case Outdoor => "<p><strong>屋外の注意事項</strong></p><ul><li>夜間は境界・坂道付近の安全にご注意ください。</li><li>ガレージ周辺では足元にご注意ください。</li></ul>"
    case Water => "<p><strong>給湯システム（エコキュート）</strong></p><ul><li>連続使用後はお湯が不足する場合があります。</li><li>復旧しない場合は管理者へご連絡ください。</li></ul>"
    case Trash => "<p><strong>ゴミ分別</strong></p><ul><li>可燃：生ごみ、紙くず、袋、PET ボトル・キャップ等。</li><li>資源：びん・缶を分別して指定場所へ。</li></ul>"
    case Laundry => "<p><strong>洗濯機クイックガイド</strong></p><ol><li>衣類を入れてドアを閉める</li><li>洗剤を入れる</li><li>洗濯/乾燥モードを選ぶ</li><li>スタートを押す</li></ol>"
    case Rules => "<p><strong>滞在ルール</strong></p><ul><li>管理者が巡回で共用部に入る場合があります（事前案内あり）。</li><li>22:00以降は静かにお過ごしください。</li><li>設備を丁寧にご利用ください。</li></ul>"
    case Count | Registration => ""
  }

  /** The `ko` fallback content of the built-in steps. */
  function KoFallback(b: BuiltinStep): string {
    match b
    case Welcome => "<p>환영합니다. 안전하고 편안한 숙박을 위해 각 단계 안내를 확인해 주세요.</p>"
    case Emergency => "<p><strong>긴급 연락처:</strong> 화재/구급 119, 경찰 110.</p><p>긴급 시 먼저 신고한 뒤 관리자에게 연락해 주세요.</p>"
    case Child => "<p><strong>어린이 안전</strong></p><ul><li>창가·계단 주변에 아이를 혼자 두지 마세요.</li><li>욕실 바닥은 미끄러울 수 있습니다.</li></ul>"
    case Outdoor => "<p><strong>야외 안전</strong></p><ul><li>특히 야간에는 경계·경사 구역을 주의해 주세요.</li><li>차고 주변 이동 시 발밑을 확인해 주세요.</li></ul>"
    case Water => "<p><strong>온수 시스템(EcoCute)</strong></p><ul><li>연속 사용 시 온수가 일시적으로 부족할 수 있습니다.</li><li>복구되지 않으면 관리자에게 연락해 주세요.</li></ul>"
    case Trash => "<p><strong>쓰레기 분리배출</strong></p><ul><li>가연성: 음식물, 종이, 비닐, PET 병/캡 등.</li><li>재활용: 병/캔을 분리해 지정 장소에 배출.</li></ul>"
    case Laundry => "<p><strong>세탁기 빠른 사용법</strong></p><ol><li>빨래를 넣고 문을 닫기</li><li>세제 넣기</li><li>세탁/건조 모드 선택</li><li>시작 버튼 누르기</li></ol>"
    case Rules => "<p><strong>숙박 규칙</strong></p><ul><li>관리자가 점검을 위해 공용공간에 출입할 수 있습니다.</li><li>22:00 이후에는 정숙 부탁드립니다.</li><li>시설을 소중히 이용해 주세요.</li></ul>"
    case Count | Registration => ""
  }

  // ---------------------------------------------------------------------
  // buildDefaultSteps
  // ---------------------------------------------------------------------

  /** The step list of a language that has translations. */
  function TranslatedSteps(lang: string): Option<seq<StepText>>
  {
    if lang == "zh-hans" then Some(ZhHansSteps)
    else if lang == "zh-hant" then Some(ZhHantSteps)
    else if lang == "en" then Some(EnSteps)
    else if lang == "jp" then Some(JpSteps)
    else if lang == "ko" then Some(KoSteps)
    else None
  }

  predicate IdsInOrder(t: seq<StepText>) {
    |t| == |StepIds| && forall i :: 0 <= i < |t| ==> t[i].id == StepIds[i]
  }

  /** Every language lists the same step ids in the same order. */
  lemma TranslatedStepIds(lang: string)
    ensures TranslatedSteps(lang).Some? ==> IdsInOrder(TranslatedSteps(lang).value)
    ensures IdsInOrder(JpSteps)
  {
    ZhHansIds();
    ZhHantIds();
    EnIds();
    JpIds();
    KoIds();
  }

  lemma ZhHansIds() ensures IdsInOrder(ZhHansSteps) { }

  lemma ZhHantIds() ensures IdsInOrder(ZhHantSteps) { }

  lemma EnIds() ensures IdsInOrder(EnSteps) { }

  lemma JpIds() ensures IdsInOrder(JpSteps) { }

  lemma KoIds() ensures IdsInOrder(KoSteps) { }

  /** `buildDefaultSteps`: the language's list, or the default language's
      list for a language without translations, every step enabled,
      built-in and without content. */
  function BuildDefaultSteps(lang: string): (r: seq<Step>)
    ensures |r| == |StepIds|
    ensures forall i :: 0 <= i < |r| ==>
      r[i].id == StepIds[i] && r[i].enabled && r[i].kind == Builtin && r[i].content == ""
    ensures TranslatedSteps(lang).None? ==>
      forall i :: 0 <= i < |r| ==> r[i].title == JpSteps[i].title && r[i].subtitle == JpSteps[i].subtitle
    ensures TranslatedSteps(lang).Some? ==>
      forall i :: 0 <= i < |r| ==>
        r[i].title == TranslatedSteps(lang).value[i].title && r[i].subtitle == TranslatedSteps(lang).value[i].subtitle
  {
    TranslatedStepIds(lang);
    var base := if TranslatedSteps(lang).Some? then TranslatedSteps(lang).value else JpSteps;
    seq(|base|, i requires 0 <= i < |base| => Step(base[i].id, base[i].title, base[i].subtitle, true, Builtin, ""))
  }

  // ---------------------------------------------------------------------
  // normalizeSteps
  // ---------------------------------------------------------------------

  /** `createStepId`; the clock reading and the random suffix are passed in. */
  function NewStepId(stamp: string): (id: string)
    ensures StartsWith(id, "custom-") && |id| == |stamp| + 7
  {
    "custom-" + stamp
  }

  function NormalizeStep(s: RawStep, stamp: string): (r: Step)
    ensures r.id != "" && (s.id != "" ==> r.id == s.id)
    ensures r.enabled <==> s.enabled != Some(false)
    ensures r.kind == Custom <==> s.kind == "custom"
    ensures r.title == s.title && r.subtitle == s.subtitle && r.content == s.content
  {
    Step(if s.id != "" then s.id else NewStepId(stamp),
         s.title, s.subtitle,
         s.enabled != Some(false),
         if s.kind == "custom" then Custom else Builtin,
         s.content)
  }

  /** `normalizeSteps`: `None` stands for a stored value that is not an
      array; `stamps(i)` is what `createStepId` draws for entry `i`. */
  function NormalizeSteps(steps: Option<seq<RawStep>>, fallback: seq<Step>, stamps: nat -> string): (r: seq<Step>)
    ensures steps.None? ==> r == fallback
    ensures steps.Some? ==> |r| == |steps.value|
    ensures steps.Some? ==> forall i :: 0 <= i < |r| ==> r[i] == NormalizeStep(steps.value[i], stamps(i))
  {
    match steps
    case None => fallback
    case Some(xs) => seq(|xs|, i requires 0 <= i < |xs| => NormalizeStep(xs[i], stamps(i)))
  }

  /** The stored form of a step (`JSON.stringify` then `JSON.parse`). */
  function Serialize(s: Step): RawStep {
    RawStep(s.id, s.title, s.subtitle, Some(s.enabled), if s.kind == Custom then "custom" else "builtin", s.content)
  }

  function SerializeAll(steps: seq<Step>): (r: seq<RawStep>)
    ensures |r| == |steps| && forall i :: 0 <= i < |r| ==> r[i] == Serialize(steps[i])
  {
    seq(|steps|, i requires 0 <= i < |steps| => Serialize(steps[i]))
  }

  predicate HasIds(steps: seq<Step>) {
    forall i :: 0 <= i < |steps| ==> steps[i].id != ""
  }

  /** A stored list of steps that all have ids normalises back to itself,
      whatever the id source would draw. */
  lemma NormalizeStored(steps: seq<Step>, fallback: seq<Step>, stamps: nat -> string)
    requires HasIds(steps)
    ensures NormalizeSteps(Some(SerializeAll(steps)), fallback, stamps) == steps
  {
    var r := NormalizeSteps(Some(SerializeAll(steps)), fallback, stamps);
    forall i | 0 <= i < |steps|
      ensures r[i] == steps[i]
    {
      assert r[i] == NormalizeStep(Serialize(steps[i]), stamps(i));
    }
  }

  /** `normalizeSteps` is idempotent: normalising its stored result changes
      nothing (the fallback being itself a list with ids). */
  lemma NormalizeIdempotent(steps: Option<seq<RawStep>>, fallback: seq<Step>, stamps: nat -> string, stamps2: nat -> string)
    requires HasIds(fallback)
    ensures var r := NormalizeSteps(steps, fallback, stamps);
      NormalizeSteps(Some(SerializeAll(r)), fallback, stamps2) == r
  {
    NormalizeStored(NormalizeSteps(steps, fallback, stamps), fallback, stamps2);
  }

  /** The built-in lists survive a round trip through storage. */
  lemma DefaultStepsStored(lang: string, stamps: nat -> string)
    ensures NormalizeSteps(Some(SerializeAll(BuildDefaultSteps(lang))), BuildDefaultSteps(lang), stamps)
            == BuildDefaultSteps(lang)
  {
    NormalizeStored(BuildDefaultSteps(lang), BuildDefaultSteps(lang), stamps);
  }

  // ---------------------------------------------------------------------
  // getBuiltinStepFallback
  // ---------------------------------------------------------------------

  predicate HasTranslations(lang: string) {
    lang == "zh-hans" || lang == "zh-hant" || lang == "en" || lang == "jp" || lang == "ko"
  }

  /** A language's table of fallback content, looked up at a built-in step. */
  function FallbackOf(lang: string, b: BuiltinStep): string
    requires HasTranslations(lang)
  {
    if lang == "zh-hans" then ZhHansFallback(b)
    else if lang == "zh-hant" then ZhHantFallback(b)
    else if lang == "en" then EnFallback(b)
    else if lang == "jp" then JpFallback(b)
    else KoFallback(b)
  }

  /** The steps that carry fallback content. */
  predicate HasFallback(b: BuiltinStep) { b != Count && b != Registration }

  /** `getBuiltinStepFallback`: the content shown for a built-in step that
      has none of its own. An id that names no built-in step, and the
      `count` and `registration` steps, have none; a language without
      translations reads the default language's table. */
  function GetBuiltinStepFallback(lang: string, stepId: string): (r: string)
    ensures BuiltinOf(stepId).None? ==> r == ""
    ensures BuiltinOf(stepId).Some? && !HasFallback(BuiltinOf(stepId).value) ==> r == ""
    ensures BuiltinOf(stepId).Some? && HasTranslations(lang) ==> r == FallbackOf(lang, BuiltinOf(stepId).value)
    ensures BuiltinOf(stepId).Some? && !HasTranslations(lang) ==> r == FallbackOf(DefaultLang, BuiltinOf(stepId).value)
  {
    var dict := if HasTranslations(lang) then lang else DefaultLang;
    match BuiltinOf(stepId)
    case None => ""
    case Some(b) => FallbackOf(dict, b)
  }

  // ---------------------------------------------------------------------
  // normalizeCompletionTemplate
  // ---------------------------------------------------------------------

  /** The completion page; as stored, a missing or falsy field is "". */
  datatype CompletionTemplate = CompletionTemplate(title: string, subtitle: string, cardHtml: string, extraHtml: string)

  function Either(value: string, fallback: string): (r: string)
    ensures value != "" ==> r == value
    ensures value == "" ==> r == fallback
  {
    if value != "" then value else fallback
  }

  /** `normalizeCompletionTemplate`; `None` is a stored `null`. */
  function NormalizeCompletionTemplate(template: Option<CompletionTemplate>, fallback: CompletionTemplate): (r: CompletionTemplate)
    ensures template.None? ==> r == fallback
    ensures template.Some? ==>
      var t := template.value;
      r.title == Either(t.title, fallback.title) && r.subtitle == Either(t.subtitle, fallback.subtitle)
      && r.cardHtml == Either(t.cardHtml, fallback.cardHtml) && r.extraHtml == Either(t.extraHtml, fallback.extraHtml)
  {
    match template
    case None => fallback
    case Some(t) =>
      CompletionTemplate(Either(t.title, fallback.title), Either(t.subtitle, fallback.subtitle),
                         Either(t.cardHtml, fallback.cardHtml), Either(t.extraHtml, fallback.extraHtml))
  }

  predicate Complete(t: CompletionTemplate) {
    t.title != "" && t.subtitle != "" && t.cardHtml != "" && t.extraHtml != ""
  }

  /** A template with every field set is kept as it is, and with a complete
      fallback the result is complete. */
  lemma CompletionTemplateFields(t: Option<CompletionTemplate>, fallback: CompletionTemplate)
    ensures t.Some? && Complete(t.value) ==> NormalizeCompletionTemplate(t, fallback) == t.value
    ensures Complete(fallback) ==> Complete(NormalizeCompletionTemplate(t, fallback))
  {
  }

  /** Normalising an already normalised template changes nothing. */
  lemma CompletionTemplateIdempotent(t: Option<CompletionTemplate>, fallback: CompletionTemplate)
    ensures var r := NormalizeCompletionTemplate(t, fallback);
      NormalizeCompletionTemplate(Some(r), fallback) == r
  {
  }
}
