/** The replacement table of the geolocation engine, in its order. */
module ReplacementTable {
  import opened TextSearch
  import opened Translate

  type EnglishText = s: string | English(s) witness "x"

  datatype Entry = Entry(cn: ChineseName, en: EnglishText)

  /** An entry that does not name a company. */
  type PlainEntry = e: Entry | '司' !in e.cn witness Entry(['\U{4E00}'], "x")

  const TERMS_1: seq<Entry> := [
    Entry("局域网", "LAN"),
    Entry("本机", "Localhost"),
    Entry("互联网", "Internet"),
    Entry("数据中心", " Data Center"),
    Entry("机房", " Data Center"),
    Entry("服务器", " Server"),
    Entry("运营商", " ISP"),
    Entry("公司", " Company")
  ]

  const TERMS_2: seq<PlainEntry> := [
    Entry("专用", " Private"),
    Entry("共享", " Shared"),
    Entry("公共", " Public "),
    Entry("骨干网", "Backbone"),
    Entry("多线", "Multi-line"),
    Entry("高防", "DDoS Protected"),
    Entry("节点", " Node")
  ]

  const US_STATES_1: seq<PlainEntry> := [
    Entry("加利福尼亚州", "California"),
    Entry("加利福尼亚", "California"),
    Entry("加州", "California"),
    Entry("弗吉尼亚州", "Virginia"),
    Entry("弗吉尼亚", "Virginia"),
    Entry("德克萨斯州", "Texas"),
    Entry("德克萨斯", "Texas")
  ]

  const US_STATES_2: seq<PlainEntry> := [
    Entry("德州", "Texas"),
    Entry("华盛顿州", "Washington State"),
    Entry("华盛顿", "Washington"),
    Entry("纽约州", "New York State"),
    Entry("纽约市", "New York City"),
    Entry("纽约", "New York"),
    Entry("俄勒冈州", "Oregon")
  ]

  const US_STATES_3: seq<PlainEntry> := [
    Entry("俄勒冈", "Oregon"),
    Entry("伊利诺伊州", "Illinois"),
    Entry("伊利诺伊", "Illinois"),
    Entry("佐治亚州", "Georgia"),
    Entry("佐治亚", "Georgia"),
    Entry("马萨诸塞州", "Massachusetts"),
    Entry("马萨诸塞", "Massachusetts")
  ]

  const US_STATES_4: seq<PlainEntry> := [
    Entry("新泽西州", "New Jersey"),
    Entry("新泽西", "New Jersey"),
    Entry("科罗拉多州", "Colorado"),
    Entry("科罗拉多", "Colorado"),
    Entry("北卡罗来纳州", "North Carolina"),
    Entry("北卡罗来纳", "North Carolina"),
    Entry("密歇根州", "Michigan")
  ]

  const US_STATES_5: seq<PlainEntry> := [
    Entry("密歇根", "Michigan"),
    Entry("亚利桑那州", "Arizona"),
    Entry("亚利桑那", "Arizona"),
    Entry("佛罗里达州", "Florida"),
    Entry("佛罗里达", "Florida"),
    Entry("俄亥俄州", "Ohio"),
    Entry("俄亥俄", "Ohio")
  ]

  const US_STATES_6: seq<PlainEntry> := [
    Entry("犹他州", "Utah"),
    Entry("犹他", "Utah"),
    Entry("宾夕法尼亚州", "Pennsylvania"),
    Entry("宾夕法尼亚", "Pennsylvania"),
    Entry("内华达州", "Nevada"),
    Entry("内华达", "Nevada"),
    Entry("马里兰州", "Maryland")
  ]

  const US_STATES_7: seq<PlainEntry> := [
    Entry("马里兰", "Maryland"),
    Entry("堪萨斯州", "Kansas"),
    Entry("堪萨斯", "Kansas"),
    Entry("明尼苏达州", "Minnesota"),
    Entry("明尼苏达", "Minnesota"),
    Entry("威斯康星州", "Wisconsin"),
    Entry("威斯康星", "Wisconsin")
  ]

  const CHINESE_REGIONS_1: seq<PlainEntry> := [
    Entry("北京市", "Beijing"),
    Entry("北京", "Beijing"),
    Entry("上海市", "Shanghai"),
    Entry("上海", "Shanghai"),
    Entry("天津市", "Tianjin"),
    Entry("天津", "Tianjin"),
    Entry("重庆市", "Chongqing"),
    Entry("重庆", "Chongqing")
  ]

  const CHINESE_REGIONS_2: seq<PlainEntry> := [
    Entry("广东省", "Guangdong"),
    Entry("广东", "Guangdong"),
    Entry("广州市", "Guangzhou"),
    Entry("广州", "Guangzhou"),
    Entry("深圳市", "Shenzhen"),
    Entry("深圳", "Shenzhen"),
    Entry("浙江省", "Zhejiang"),
    Entry("浙江", "Zhejiang")
  ]

  const CHINESE_REGIONS_3: seq<PlainEntry> := [
    Entry("杭州市", "Hangzhou"),
    Entry("杭州", "Hangzhou"),
    Entry("江苏省", "Jiangsu"),
    Entry("江苏", "Jiangsu"),
    Entry("南京市", "Nanjing"),
    Entry("南京", "Nanjing"),
    Entry("四川省", "Sichuan"),
    Entry("四川", "Sichuan")
  ]

  const CHINESE_REGIONS_4: seq<PlainEntry> := [
    Entry("成都市", "Chengdu"),
    Entry("成都", "Chengdu"),
    Entry("湖北省", "Hubei"),
    Entry("湖北", "Hubei"),
    Entry("武汉市", "Wuhan"),
    Entry("武汉", "Wuhan"),
    Entry("陕西省", "Shaanxi"),
    Entry("陕西", "Shaanxi")
  ]

  const CHINESE_REGIONS_5: seq<PlainEntry> := [
    Entry("西安市", "Xi'an"),
    Entry("西安", "Xi'an"),
    Entry("福建省", "Fujian"),
    Entry("福建", "Fujian"),
    Entry("山东省", "Shandong"),
    Entry("山东", "Shandong"),
    Entry("河南省", "Henan"),
    Entry("河南", "Henan")
  ]

  const CHINESE_REGIONS_6: seq<PlainEntry> := [
    Entry("河北省", "Hebei"),
    Entry("河北", "Hebei"),
    Entry("山西省", "Shanxi"),
    Entry("山西", "Shanxi"),
    Entry("辽宁省", "Liaoning"),
    Entry("辽宁", "Liaoning"),
    Entry("吉林省", "Jilin"),
    Entry("吉林", "Jilin")
  ]

  const CHINESE_REGIONS_7: seq<PlainEntry> := [
    Entry("黑龙江省", "Heilongjiang"),
    Entry("黑龙江", "Heilongjiang"),
    Entry("安徽省", "Anhui"),
    Entry("安徽", "Anhui"),
    Entry("江西省", "Jiangxi"),
    Entry("江西", "Jiangxi"),
    Entry("湖南省", "Hunan"),
    Entry("湖南", "Hunan")
  ]

  const CHINESE_REGIONS_8: seq<PlainEntry> := [
    Entry("海南省", "Hainan"),
    Entry("海南", "Hainan"),
    Entry("贵州省", "Guizhou"),
    Entry("贵州", "Guizhou"),
    Entry("云南省", "Yunnan"),
    Entry("云南", "Yunnan"),
    Entry("甘肃省", "Gansu"),
    Entry("甘肃", "Gansu")
  ]

  const CHINESE_REGIONS_9: seq<PlainEntry> := [
    Entry("青海省", "Qinghai"),
    Entry("青海", "Qinghai"),
    Entry("内蒙古自治区", "Inner Mongolia"),
    Entry("内蒙古", "Inner Mongolia"),
    Entry("广西壮族自治区", "Guangxi"),
    Entry("广西", "Guangxi"),
    Entry("西藏自治区", "Tibet"),
    Entry("西藏", "Tibet")
  ]

  const CHINESE_REGIONS_10: seq<PlainEntry> := [
    Entry("宁夏回族自治区", "Ningxia"),
    Entry("宁夏", "Ningxia"),
    Entry("新疆维吾尔自治区", "Xinjiang"),
    Entry("新疆", "Xinjiang"),
    Entry("香港特别行政区", "Hong Kong"),
    Entry("香港", "Hong Kong"),
    Entry("澳门特别行政区", "Macao"),
    Entry("澳门", "Macao")
  ]

  const CHINESE_REGIONS_11: seq<PlainEntry> := [
    Entry("台湾省", "Taiwan"),
    Entry("台湾", "Taiwan")
  ]

  const CITIES_1: seq<PlainEntry> := [
    Entry("东京", "Tokyo"),
    Entry("大阪", "Osaka"),
    Entry("首尔", "Seoul"),
    Entry("伦敦", "London"),
    Entry("巴黎", "Paris"),
    Entry("法兰克福", "Frankfurt")
  ]

  const CITIES_2: seq<PlainEntry> := [
    Entry("阿姆斯特丹", "Amsterdam"),
    Entry("赫尔辛基", "Helsinki"),
    Entry("山景城", "Mountain View"),
    Entry("圣克拉拉", "Santa Clara"),
    Entry("西雅图", "Seattle"),
    Entry("芝加哥", "Chicago")
  ]

  const CITIES_3: seq<PlainEntry> := [
    Entry("洛杉矶", "Los Angeles"),
    Entry("旧金山", "San Francisco"),
    Entry("达拉斯", "Dallas"),
    Entry("休斯敦", "Houston"),
    Entry("迈阿密", "Miami"),
    Entry("波士顿", "Boston")
  ]

  const CITIES_4: seq<PlainEntry> := [
    Entry("亚特兰大", "Atlanta"),
    Entry("阿什本", "Ashburn"),
    Entry("波特兰", "Portland"),
    Entry("丹佛", "Denver"),
    Entry("凤凰城", "Phoenix"),
    Entry("盐湖城", "Salt Lake City")
  ]

  const CITIES_5: seq<PlainEntry> := [
    Entry("德黑兰", "Tehran"),
    Entry("伊斯法罕", "Isfahan"),
    Entry("设拉子", "Shiraz"),
    Entry("马什哈德", "Mashhad"),
    Entry("大不里士", "Tabriz")
  ]

  const PROVIDERS_1: seq<PlainEntry> := [
    Entry("联通", "China Unicom"),
    Entry("电信", "China Telecom"),
    Entry("移动", "China Mobile"),
    Entry("铁通", "China Tietong"),
    Entry("广电", "China Broadband"),
    Entry("教育网", "CERNET")
  ]

  const PROVIDERS_2: seq<PlainEntry> := [
    Entry("阿里云", "Alibaba Cloud"),
    Entry("腾讯云", "Tencent Cloud"),
    Entry("华为云", "Huawei Cloud"),
    Entry("金山云", "Kingsoft Cloud"),
    Entry("百度云", "Baidu Cloud")
  ]

  const PROVIDERS_3: seq<Entry> := [
    Entry("世纪互联", "21Vianet"),
    Entry("谷歌公司", "Google LLC"),
    Entry("谷歌", "Google"),
    Entry("微软公司", "Microsoft Corp"),
    Entry("微软", "Microsoft"),
    Entry("亚马逊公司", "Amazon.com"),
    Entry("亚马逊", "Amazon"),
    Entry("脸书", "Facebook"),
    Entry("推特", "Twitter"),
    Entry("甲骨文", "Oracle")
  ]

  const PLAIN_ENTRIES: seq<PlainEntry> :=
    TERMS_2 + US_STATES_1 + US_STATES_2 + US_STATES_3 + US_STATES_4 + US_STATES_5 + US_STATES_6 + US_STATES_7
    + CHINESE_REGIONS_1 + CHINESE_REGIONS_2 + CHINESE_REGIONS_3 + CHINESE_REGIONS_4 + CHINESE_REGIONS_5
    + CHINESE_REGIONS_6 + CHINESE_REGIONS_7 + CHINESE_REGIONS_8 + CHINESE_REGIONS_9 + CHINESE_REGIONS_10
    + CHINESE_REGIONS_11 + CITIES_1 + CITIES_2 + CITIES_3 + CITIES_4 + CITIES_5 + PROVIDERS_1 + PROVIDERS_2

  const ENTRIES: seq<Entry> := TERMS_1 + PLAIN_ENTRIES + PROVIDERS_3

  const REPLACEMENTS: seq<Rule> :=
    seq(|ENTRIES|, i requires 0 <= i < |ENTRIES| => Rule(ENTRIES[i].cn, ENTRIES[i].en))

  /** With this table: the result is in normal form, and translating twice is translating once. */
  lemma TableTranslates(text: string)
    ensures var t := Translated(text, REPLACEMENTS);
            NoCJK(t) && NoOuterSpace(t) && NoAdjacentSpaces(t) && Translated(t, REPLACEMENTS) == t
  {
    TranslatedIsNormal(text, REPLACEMENTS);
    TranslatedIsIdempotent(text, REPLACEMENTS);
  }

  const COMPANY := "公司"

  lemma CompanyComesEarly()
    ensures |REPLACEMENTS| > 7 && REPLACEMENTS[7].cn == COMPANY && AllCJK(COMPANY)
  {
    assert ENTRIES[7] == TERMS_1[7];
  }

  /** The general word for a company goes first, so no later rule for a named company ever finds its name. */
  lemma CompanyRulesNeverFire(text: string, j: nat)
    requires 7 < j < |REPLACEMENTS| && Contains(REPLACEMENTS[j].cn, COMPANY)
    ensures !Contains(Rewritten(text, REPLACEMENTS[..j]), REPLACEMENTS[j].cn)
    ensures Rewritten(text, REPLACEMENTS[..j + 1]) == Rewritten(text, REPLACEMENTS[..j])
  {
    CompanyComesEarly();
    forall k | 7 <= k < j ensures English(REPLACEMENTS[k].en) {
      var en: EnglishText := ENTRIES[k].en;
    }
    ShadowedRuleNeverFires(text, REPLACEMENTS, 7, j);
  }

  lemma NamesHoldCompany()
    ensures Contains("谷歌公司", COMPANY) && Contains("微软公司", COMPANY) && Contains("亚马逊公司", COMPANY)
  {
    assert OccursAt("谷歌公司", COMPANY, 2);
    assert OccursAt("微软公司", COMPANY, 2);
    assert OccursAt("亚马逊公司", COMPANY, 3);
  }

  lemma LastRules(j: nat)
    requires j < |PROVIDERS_3|
    ensures |REPLACEMENTS| - |PROVIDERS_3| > 7
    ensures REPLACEMENTS[|REPLACEMENTS| - |PROVIDERS_3| + j].cn == PROVIDERS_3[j].cn
  {
  }

  lemma CompanyEndsTheName(name: string)
    requires Contains(name, COMPANY)
    ensures '司' in name
  {
    var i := Occurrence(name, COMPANY);
    assert name[i + 1] == name[i..i + 2][1];
  }

  lemma PlainNameLacksCompany(name: string)
    requires '司' !in name
    ensures !Contains(name, COMPANY)
  {
    if Contains(name, COMPANY) {
      CompanyEndsTheName(name);
    }
  }

  lemma PlainAmong(front: seq<Entry>, plain: seq<PlainEntry>, back: seq<Entry>, j: nat)
    requires |front| <= j < |front| + |plain|
    ensures '司' !in (front + plain + back)[j].cn
  {
    var e: PlainEntry := plain[j - |front|];
  }

  lemma PlainRule(j: nat)
    requires |TERMS_1| <= j < |TERMS_1| + |PLAIN_ENTRIES|
    ensures !Contains(ENTRIES[j].cn, COMPANY)
  {
    PlainAmong(TERMS_1, PLAIN_ENTRIES, PROVIDERS_3, j);
    PlainNameLacksCompany(ENTRIES[j].cn);
  }

  lemma PlainProvider(p: nat)
    requires p < |PROVIDERS_3| && p != 1 && p != 3 && p != 5
    ensures '司' !in PROVIDERS_3[p].cn
  {
  }

  lemma OtherRule(j: nat)
    requires |TERMS_1| <= j < |ENTRIES|
    requires j - (|TERMS_1| + |PLAIN_ENTRIES|) !in {1, 3, 5}
    ensures !Contains(ENTRIES[j].cn, COMPANY)
  {
    var n := |TERMS_1| + |PLAIN_ENTRIES|;
    if j < n {
      PlainRule(j);
    } else {
      assert ENTRIES[j] == PROVIDERS_3[j - n];
      PlainProvider(j - n);
      PlainNameLacksCompany(ENTRIES[j].cn);
    }
  }

  /** There are exactly three such rules. */
  lemma NamedCompanies()
    ensures var n := |REPLACEMENTS| - |PROVIDERS_3|;
            && n > 7 && REPLACEMENTS[n + 1].cn == "谷歌公司"
            && REPLACEMENTS[n + 3].cn == "微软公司" && REPLACEMENTS[n + 5].cn == "亚马逊公司"
            && forall j :: 7 < j < |REPLACEMENTS| ==>
                 (Contains(REPLACEMENTS[j].cn, COMPANY) <==> j in {n + 1, n + 3, n + 5})
  {
    var n := |REPLACEMENTS| - |PROVIDERS_3|;
    NamesHoldCompany();
    LastRules(1);
    LastRules(3);
    LastRules(5);
    forall j | 7 < j < |REPLACEMENTS| && j !in {n + 1, n + 3, n + 5} ensures !Contains(REPLACEMENTS[j].cn, COMPANY) {
      OtherRule(j);
    }
  }
}
