/**
 Composites that _is_prime of prime_service.py rejects only because its list of witnesses is as long
 as it is: they are known to pass the first six, eight and eleven primes.
 */
module Rejections {
  import opened MillerRabin
  import opened ModularPowers
  import opened NumberTheory

  // ---------- when a base fails ----------

  lemma HalveOddPart(m: int)
    requires m >= 2 && m % 2 == 0
    ensures OddPart(m) == OddPart(m / 2) && TwoAdic(m) == 1 + TwoAdic(m / 2)
  {
  }

  lemma OddIsOddPart(m: int)
    requires m >= 1 && m % 2 == 1
    ensures OddPart(m) == m && TwoAdic(m) == 0
  {
  }

  /** A base with a^d neither 1 nor -1 fails when n - 1 is twice an odd d. */
  lemma FailsAtOnce(n: int, a: int, d: nat, x: int)
    requires n >= 2 && d % 2 == 1 && n - 1 == 2 * d && Power(n, a, d, x) && x != 1 && x != n - 1
    ensures !Passes(n, a)
  {
    HalveOddPart(n - 1);
    OddIsOddPart(d);
    ChainStart(a, d, n);
    hide Pow, OddPart, TwoAdic;
  }

  // ---------- 3474749660383 ----------

  const PSI_6 := 3474749660383

  lemma SixBasesPower()
    ensures Power(PSI_6, 17, 1737374830191, 124990677626)
  {
    hide Power;
    FirstPower(PSI_6, 17);
    SquareAndMultiply(PSI_6, 17, 1, 17, 0, 4913);
    Square(PSI_6, 17, 3, 4913, 0, 24137569);
    Square(PSI_6, 17, 6, 24137569, 167, 2339043945800);
    SquareAndMultiply(PSI_6, 17, 12, 2339043945800, 26767151869084, 1954062580828);
    Square(PSI_6, 17, 25, 1954062580828, 1098887961146, 1153233686666);
    SquareAndMultiply(PSI_6, 17, 50, 1153233686666, 6506688861881, 2462180764029);
    Square(PSI_6, 17, 101, 2462180764029, 1744682267005, 2563903749926);
    Square(PSI_6, 17, 202, 2563903749926, 1891820442155, 901598360111);
    SquareAndMultiply(PSI_6, 17, 404, 901598360111, 3976963695482, 755279359851);
    Square(PSI_6, 17, 809, 755279359851, 164169211359, 1906154851704);
    Square(PSI_6, 17, 1618, 1906154851704, 1045665637470, 1642532352606);
    Square(PSI_6, 17, 3236, 1642532352606, 776433640707, 816620980455);
    Square(PSI_6, 17, 6472, 816620980455, 191918811683, 2672309352436);
    Square(PSI_6, 17, 12944, 2672309352436, 2055180364944, 1939660320544);
    SquareAndMultiply(PSI_6, 17, 25888, 1939660320544, 18406735148087, 3365621613591);
    SquareAndMultiply(PSI_6, 17, 51777, 3365621613591, 55418654349499, 554734361660);
    SquareAndMultiply(PSI_6, 17, 103555, 554734361660, 1505551223949, 1572799132733);
    Square(PSI_6, 17, 207111, 1572799132733, 711906569883, 296246004100);
    Square(PSI_6, 17, 414222, 296246004100, 25256983530, 2050692318010);
    SquareAndMultiply(PSI_6, 17, 828444, 2050692318010, 20574363537196, 678908015632);
    SquareAndMultiply(PSI_6, 17, 1656889, 678908015632, 2255003772518, 154969355814);
    SquareAndMultiply(PSI_6, 17, 3313779, 154969355814, 117494369668, 3106648781288);
    Square(PSI_6, 17, 6627559, 3106648781288, 2777543015635, 1325749850739);
    Square(PSI_6, 17, 13255118, 1325749850739, 505824257434, 2206115808899);
    Square(PSI_6, 17, 26510236, 2206115808899, 1400661180793, 1960574968482);
    Square(PSI_6, 17, 53020472, 1960574968482, 1106224788180, 2484180711384);
    Square(PSI_6, 17, 106040944, 2484180711384, 1775999542405, 179150154341);
    Square(PSI_6, 17, 212081888, 179150154341, 9236572685, 97476705926);
    SquareAndMultiply(PSI_6, 17, 424163776, 97476705926, 46486525694, 1513916416290);
    SquareAndMultiply(PSI_6, 17, 848327553, 1513916416290, 11213190408489, 2996024998413);
    SquareAndMultiply(PSI_6, 17, 1696655107, 2996024998413, 43915341639934, 1398322280951);
    Square(PSI_6, 17, 3393310215, 1398322280951, 562718294125, 1862523314526);
    Square(PSI_6, 17, 6786620430, 1862523314526, 998343315693, 3027218314257);
    SquareAndMultiply(PSI_6, 17, 13573240860, 3027218314257, 44834557163398, 1477422593399);
    SquareAndMultiply(PSI_6, 17, 27146481721, 1477422593399, 10679105391197, 3016824495966);
    Square(PSI_6, 17, 54292963443, 3016824495966, 2619247695230, 1111961200066);
    SquareAndMultiply(PSI_6, 17, 108585926886, 1111961200066, 6049293656271, 3027344662259);
    SquareAndMultiply(PSI_6, 17, 217171853773, 3027344662259, 44838299790685, 3155505780022);
    SquareAndMultiply(PSI_6, 17, 434343707547, 3155505780022, 48715073290526, 88332016770);
    SquareAndMultiply(PSI_6, 17, 868687415095, 88332016770, 38173474678, 124990677626);
  }

  // ---------- 341550071728321 ----------

  const PSI_8 := 341550071728321

  lemma EightBasesPower()
    ensures Power(PSI_8, 23, 5336719870755, 235183663767964)
  {
    hide Power;
    FirstPower(PSI_8, 23);
    Square(PSI_8, 23, 1, 23, 0, 529);
    Square(PSI_8, 23, 2, 529, 0, 279841);
    SquareAndMultiply(PSI_8, 23, 4, 279841, 0, 1801152661463);
    SquareAndMultiply(PSI_8, 23, 9, 1801152661463, 218461294855, 3577126820032);
    Square(PSI_8, 23, 19, 3577126820032, 37464012880, 197506711706544);
    SquareAndMultiply(PSI_8, 23, 38, 197506711706544, 2626861479928765, 208238252696963);
    SquareAndMultiply(PSI_8, 23, 77, 208238252696963, 2920078166980626, 100713574228541);
    Square(PSI_8, 23, 155, 100713574228541, 29697619393141, 152566256142420);
    SquareAndMultiply(PSI_8, 23, 310, 152566256142420, 1567438223910178, 324525316746062);
    Square(PSI_8, 23, 621, 324525316746062, 308349170229142, 156788251577262);
    SquareAndMultiply(PSI_8, 23, 1242, 156788251577262, 1655390617516237, 59764504334735);
    Square(PSI_8, 23, 2485, 59764504334735, 10457605704201, 208212567143704);
    Square(PSI_8, 23, 4970, 208212567143704, 126928601997353, 21179609705303);
    Square(PSI_8, 23, 9940, 21179609705303, 1313353163707, 221867765075862);
    SquareAndMultiply(PSI_8, 23, 19880, 221867765075862, 3314834669497602, 266247241003770);
    SquareAndMultiply(PSI_8, 23, 39761, 266247241003770, 4773574306743610, 272576424117890);
    Square(PSI_8, 23, 79523, 272576424117890, 217531522124798, 241778505047942);
    SquareAndMultiply(PSI_8, 23, 159046, 241778505047942, 3936487085979792, 175928403924140);
    Square(PSI_8, 23, 318093, 175928403924140, 90618640923356, 152016659174324);
    SquareAndMultiply(PSI_8, 23, 636186, 152016659174324, 1556165644001963, 153826153016325);
    Square(PSI_8, 23, 1272373, 153826153016325, 69279696625634, 221849624125111);
    Square(PSI_8, 23, 2544746, 221849624125111, 144099679076050, 118368282950271);
    SquareAndMultiply(PSI_8, 23, 5089492, 118368282950271, 943504879876075, 270105208569068);
    Square(PSI_8, 23, 10178985, 270105208569068, 213605060385323, 316143294555941);
    SquareAndMultiply(PSI_8, 23, 20357970, 316143294555941, 6730408195493671, 72101916139672);
    Square(PSI_8, 23, 40715941, 72101916139672, 15220861423643, 192901030174181);
    SquareAndMultiply(PSI_8, 23, 81431882, 192901030174181, 2505777752706062, 161934543695601);
    SquareAndMultiply(PSI_8, 23, 162863765, 161934543695601, 1765844507400661, 292743087457442);
    Square(PSI_8, 23, 325727531, 292743087457442, 250910546791753, 55901781846651);
    Square(PSI_8, 23, 651455062, 55901781846651, 9149490725671, 21480227487410);
    SquareAndMultiply(PSI_8, 23, 1302910124, 21480227487410, 31070712189431, 159127176110949);
    Square(PSI_8, 23, 2605820249, 159127176110949, 74136884378072, 245902123903489);
    SquareAndMultiply(PSI_8, 23, 5211640498, 245902123903489, 4071908541515194, 234159824972509);
    SquareAndMultiply(PSI_8, 23, 10423280997, 234159824972509, 3692310580217685, 297259572809978);
    Square(PSI_8, 23, 20846561995, 297259572809978, 258712443478733, 163187979063191);
    Square(PSI_8, 23, 41693123990, 163187979063191, 77968996978899, 267365473403902);
    SquareAndMultiply(PSI_8, 23, 83386247980, 267365473403902, 4813756320283038, 251491302469694);
    Square(PSI_8, 23, 166772495961, 251491302469694, 185178925297408, 16856286961668);
    Square(PSI_8, 23, 333544991922, 16856286961668, 831896795384, 133036726471960);
    Square(PSI_8, 23, 667089983844, 133036726471960, 51818963178122, 308801151248438);
    SquareAndMultiply(PSI_8, 23, 1334179967688, 308801151248438, 6421422962044819, 252846347497513);
    SquareAndMultiply(PSI_8, 23, 2668359935377, 252846347497513, 4305135489342763, 235183663767964);
  }

  // ---------- 3825123056546413051 ----------

  const PSI_11 := 3825123056546413051

  lemma ElevenBasesPower()
    ensures Power(PSI_11, 37, 1912561528273206525, 2228475994860574658)
  {
    hide Power;
    FirstPower(PSI_11, 37);
    SquareAndMultiply(PSI_11, 37, 1, 37, 0, 50653);
    Square(PSI_11, 37, 3, 50653, 0, 2565726409);
    SquareAndMultiply(PSI_11, 37, 6, 2565726409, 63, 2586471653657283184);
    Square(PSI_11, 37, 13, 2586471653657283184, 1748920365770582451, 3365357308871209855);
    SquareAndMultiply(PSI_11, 37, 26, 3365357308871209855, 109551587494322911608, 2720388424686881917);
    Square(PSI_11, 37, 53, 2720388424686881917, 1934712445003553077, 1160759929257586962);
    Square(PSI_11, 37, 106, 1160759929257586962, 352240592904368363, 3028040242537683931);
    Square(PSI_11, 37, 212, 3028040242537683931, 2397054310379784541, 2139810277885168170);
    SquareAndMultiply(PSI_11, 37, 424, 2139810277885168170, 44290119411387198991, 2432848120686077759);
    Square(PSI_11, 37, 849, 2432848120686077759, 1547335834907658949, 1506474477803918682);
    SquareAndMultiply(PSI_11, 37, 1698, 1506474477803918682, 21952291937497550669, 601160954863452469);
    Square(PSI_11, 37, 3397, 601160954863452469, 94479181011925405, 1570595910291735306);
    SquareAndMultiply(PSI_11, 37, 6794, 1570595910291735306, 23860813011107413812, 3653988782641344120);
    SquareAndMultiply(PSI_11, 37, 13589, 3653988782641344120, 129148906211077961931, 2595560215987691319);
    Square(PSI_11, 37, 27179, 2595560215987691319, 1761232968254004880, 40111082178270881);
    Square(PSI_11, 37, 54358, 40111082178270881, 420613635098219, 2782703508484059992);
    SquareAndMultiply(PSI_11, 37, 108716, 2782703508484059992, 74901442897753473172, 3054254116877314596);
    Square(PSI_11, 37, 217433, 3054254116877314596, 2438736760245411381, 3069984094912309785);
    Square(PSI_11, 37, 434866, 3069984094912309785, 2463921344147270517, 1208157695290428858);
    Square(PSI_11, 37, 869732, 1208157695290428858, 381594263795358707, 2509304158827899107);
    SquareAndMultiply(PSI_11, 37, 1739464, 2509304158827899107, 60906399331960887876, 2610277891747635937);
    Square(PSI_11, 37, 3478929, 2610277891747635937, 1781263130995380341, 1406056693262637578);
    Square(PSI_11, 37, 6957858, 1406056693262637578, 516844921181080059, 2890248822864256075);
    SquareAndMultiply(PSI_11, 37, 13915716, 2890248822864256075, 80802868555968443593, 355195206080475882);
    Square(PSI_11, 37, 27831433, 355195206080475882, 32982895597733012, 828623315813338312);
    Square(PSI_11, 37, 55662866, 828623315813338312, 179501832845455327, 2002511201056736667);
    SquareAndMultiply(PSI_11, 37, 111325732, 2002511201056736667, 38788788985313098468, 1257025252980643025);
    SquareAndMultiply(PSI_11, 37, 222651465, 1257025252980643025, 15284256517000617462, 3805483043507276563);
    SquareAndMultiply(PSI_11, 37, 445302931, 3805483043507276563, 140079923252814293436, 2690798557882406617);
    Square(PSI_11, 37, 890605863, 2690798557882406617, 1892853320551515191, 2393966661538226948);
    SquareAndMultiply(PSI_11, 37, 1781211726, 2393966661538226948, 55436079518979767455, 354942009118548843);
    Square(PSI_11, 37, 3562423453, 354942009118548843, 32935889375245084, 3752162147955447365);
    Square(PSI_11, 37, 7124846906, 3752162147955447365, 3680592905489656091, 548173247661399584);
    SquareAndMultiply(PSI_11, 37, 14249693812, 548173247661399584, 2906644958959636112, 509289685661105360);
    SquareAndMultiply(PSI_11, 37, 28499387625, 509289685661105360, 2508915729820701863, 694214673843781187);
    SquareAndMultiply(PSI_11, 37, 56998775251, 694214673843781187, 4661695383771675967, 1170682056287926536);
    SquareAndMultiply(PSI_11, 37, 113997550503, 1170682056287926536, 13256663614796376312, 3408749522535446040);
    SquareAndMultiply(PSI_11, 37, 227995101007, 3408749522535446040, 112394870966957549193, 505575754782501357);
    Square(PSI_11, 37, 455990202015, 505575754782501357, 66823168835429720, 554425139505565729);
    Square(PSI_11, 37, 911980404030, 554425139505565729, 80360090583150174, 2452532168572780567);
    SquareAndMultiply(PSI_11, 37, 1823960808060, 2452532168572780567, 58181610398347435993, 2161632860552790450);
    SquareAndMultiply(PSI_11, 37, 3647921616121, 2161632860552790450, 45198100172363143315, 2532855760915088435);
    Square(PSI_11, 37, 7295843232243, 2532855760915088435, 1677163900549903611, 2895369418028322064);
    SquareAndMultiply(PSI_11, 37, 14591686464486, 2895369418028322064, 81089435787625352878, 728634523421532774);
    Square(PSI_11, 37, 29183372928973, 728634523421532774, 138795082111963497, 2516723153559735729);
    SquareAndMultiply(PSI_11, 37, 58366745857946, 2516723153559735729, 61267082785866413391, 2193043416405407376);
    SquareAndMultiply(PSI_11, 37, 116733491715893, 2193043416405407376, 46521185368481111297, 459148091398261765);
    SquareAndMultiply(PSI_11, 37, 233466983431787, 459148091398261765, 2039209659028656145, 1249568727434514930);
    SquareAndMultiply(PSI_11, 37, 466933966863575, 1249568727434514930, 15103465513526959519, 2112565657007198831);
    SquareAndMultiply(PSI_11, 37, 933867933727151, 2112565657007198831, 43169472667956742977, 2898661437121969930);
    Square(PSI_11, 37, 1867735867454303, 2898661437121969930, 2196592894620265782, 1213604779450684018);
    Square(PSI_11, 37, 3735471734908606, 1213604779450684018, 385042922523732506, 3391152493569288518);
    SquareAndMultiply(PSI_11, 37, 7470943469817212, 3391152493569288518, 111237431421590046131, 2571505381215088307);
    SquareAndMultiply(PSI_11, 37, 14941886939634425, 2571505381215088307, 63963348010240167158, 1112143983347892155);
    SquareAndMultiply(PSI_11, 37, 29883773879268851, 1112143983347892155, 11964053493773037998, 99803133864017027);
    SquareAndMultiply(PSI_11, 37, 59767547758537703, 99803133864017027, 96348436149049564, 1158985935983533209);
    SquareAndMultiply(PSI_11, 37, 119535095517075407, 1158985935983533209, 12993095923495587721, 1325748870946247426);
    SquareAndMultiply(PSI_11, 37, 239070191034150815, 1325748870946247426, 17001171357054135292, 2008200165761646720);
    Square(PSI_11, 37, 478140382068301631, 2008200165761646720, 1054310631618282837, 3269450461740652713);
    SquareAndMultiply(PSI_11, 37, 956280764136603262, 3269450461740652713, 103396499422114536745, 2228475994860574658);
  }

  // ---------- the chain of the second one ----------

  // One squaring along the chain of base 23.
  lemma SquareInChain(i: nat, x: int, q: int, y: int)
    requires Chain(23, 5336719870755, i, PSI_8) == x && x * x == PSI_8 * q + y && 0 <= y < PSI_8
    ensures Chain(23, 5336719870755, i + 1, PSI_8) == y
  {
    hide Chain;
    ChainStep(23, 5336719870755, i, PSI_8);
    Remainder(PSI_8, x * x, q, y);
  }

  lemma EightBasesParts()
    ensures OddPart(PSI_8 - 1) == 5336719870755 && TwoAdic(PSI_8 - 1) == 6
  {
    var m := PSI_8 - 1;
    HalveOddPart(m);
    HalveOddPart(m / 2);
    HalveOddPart(m / 4);
    HalveOddPart(m / 8);
    HalveOddPart(m / 16);
    HalveOddPart(m / 32);
    OddIsOddPart(m / 64);
  }

  lemma ChainFromPower(n: int, a: int, d: nat, x: int)
    requires n >= 2 && Power(n, a, d, x)
    ensures Chain(a, d, 0, n) == x
  {
    ChainStart(a, d, n);
  }

  lemma EightBasesChain()
    ensures Chain(23, 5336719870755, 0, PSI_8) != 1
    ensures forall i :: 0 <= i < 6 ==> Chain(23, 5336719870755, i, PSI_8) != PSI_8 - 1
  {
    hide Pow, Power, Chain;
    EightBasesPower();
    ChainFromPower(PSI_8, 23, 5336719870755, 235183663767964);
    SquareInChain(0, 235183663767964, 161942158066121, 17984566392455);
    SquareInChain(1, 17984566392455, 946990368609, 188759586251536);
    SquareInChain(2, 188759586251536, 104319057002547, 323565473325709);
    SquareInChain(3, 323565473325709, 306527868662745, 188759586251536);
    SquareInChain(4, 188759586251536, 104319057002547, 323565473325709);
  }

  lemma EightBasesFail()
    ensures !Passes(PSI_8, 23)
  {
    EightBasesChain();
    EightBasesParts();
    ChainStart(23, 5336719870755, PSI_8);
    hide Pow, Chain, OddPart, TwoAdic;
  }

  // ---------- the rejections ----------

  lemma FailedWitnessRejects(n: int, a: int, p: int, q: int)
    requires n == p * q && 2 <= p < n && a in WITNESSES && a != n && !Passes(n, a)
    ensures !Accepted(n)
  {
    hide Passes;
    MultipleIsDivisible(p, q);
    assert !Prime(n);
  }

  /** 1303 * 16927 * 157543 is rejected, by 17. */
  lemma SixBasesDoNotSuffice()
    ensures PSI_6 == 1303 * 16927 * 157543 && !Passes(PSI_6, 17) && !Accepted(PSI_6)
  {
    SixBasesPower();
    FailsAtOnce(PSI_6, 17, 1737374830191, 124990677626);
    FailedWitnessRejects(PSI_6, 17, 1303, 16927 * 157543);
  }

  /** 10670053 * 32010157 is rejected, by 23. */
  lemma EightBasesDoNotSuffice()
    ensures PSI_8 == 10670053 * 32010157 && !Passes(PSI_8, 23) && !Accepted(PSI_8)
  {
    EightBasesFail();
    FailedWitnessRejects(PSI_8, 23, 10670053, 32010157);
  }

  /** 149491 * 747451 * 34233211 is rejected, by the last witness, 37. */
  lemma ElevenBasesDoNotSuffice()
    ensures PSI_11 == 149491 * 747451 * 34233211 && !Passes(PSI_11, 37) && !Accepted(PSI_11)
  {
    ElevenBasesPower();
    FailsAtOnce(PSI_11, 37, 1912561528273206525, 2228475994860574658);
    FailedWitnessRejects(PSI_11, 37, 149491, 747451 * 34233211);
  }
}
