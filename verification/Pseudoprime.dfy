/**
 A composite that all twelve witnesses of prime_service.py accept. It is (p)*(2p - 1), so that
 its predecessor is (p - 1)*(2p + 1), and each witness needs only its power (p - 1)/4.
 */
module Pseudoprime {
  import opened NumberTheory
  import opened MillerRabin
  import opened ModularPowers

  const P := 399165290221
  const N := 318665857834031151167461
  const PSEUDOPRIME := N
  const QUARTER := 99791322555

  /** The documented bound of _is_prime. */
  const DOCUMENTED_BOUND := 3317044064679887385961981

  // ---------- the quarter powers ----------

  lemma QuarterPower2()
    ensures Power(PSEUDOPRIME, 2, QUARTER, 107889940756980366727205)
  {
    hide Power, Pow;
    FirstPower(PSEUDOPRIME, 2);
    Square(N, 2, 1, 2, 0, 4);
    SquareAndMultiply(N, 2, 2, 4, 0, 32);
    SquareAndMultiply(N, 2, 5, 32, 0, 2048);
    SquareAndMultiply(N, 2, 11, 2048, 0, 8388608);
    Square(N, 2, 23, 8388608, 0, 70368744177664);
    Square(N, 2, 46, 70368744177664, 15539, 11392258511041605320417);
    SquareAndMultiply(N, 2, 92, 11392258511041605320417, 814543201236163134671, 130654179090751457967447);
    SquareAndMultiply(N, 2, 185, 130654179090751457967447, 107137392313731270893981, 48961120074395715443377);
    SquareAndMultiply(N, 2, 371, 48961120074395715443377, 15045171737148634385576, 113984037069570567385722);
    SquareAndMultiply(N, 2, 743, 113984037069570567385722, 81542219772059618839114, 55434644162204428053014);
    Square(N, 2, 1487, 55434644162204428053014, 9643329204695401419538, 169797679586449439231178);
    Square(N, 2, 2974, 169797679586449439231178, 90474869786516504053208, 85201718064104065002796);
    Square(N, 2, 5948, 85201718064104065002796, 22780390752924375636662, 201663527660405034762434);
    Square(N, 2, 11896, 201663527660405034762434, 127620130580854108048178, 220384760989386083668298);
    Square(N, 2, 23792, 220384760989386083668298, 152414956551903232306176, 304680541749566289677668);
    Square(N, 2, 47584, 304680541749566289677668, 291309000442580912852520, 61248148706229622066504);
    Square(N, 2, 95168, 61248148706229622066504, 11772003895987511980201, 65613224779582331342355);
    SquareAndMultiply(N, 2, 190336, 65613224779582331342355, 27019494935778115951341, 5059257024653615376849);
    SquareAndMultiply(N, 2, 380673, 5059257024653615376849, 160645271605080506292, 196464888573031814172990);
    Square(N, 2, 761347, 196464888573031814172990, 121125158196636207518619, 158311349588589901083741);
    SquareAndMultiply(N, 2, 1522694, 158311349588589901083741, 157296320220246929869717, 156365643908935409431625);
    Square(N, 2, 3045389, 156365643908935409431625, 76726809584320920787050, 33709332669895079960575);
    SquareAndMultiply(N, 2, 6090778, 33709332669895079960575, 7131727991026124312967, 226953733168848517894463);
    SquareAndMultiply(N, 2, 12181557, 226953733168848517894463, 323272768217946313682977, 99599774719793420105341);
    SquareAndMultiply(N, 2, 24363115, 99599774719793420105341, 62260294790665871608067, 43577570796226597944675);
    SquareAndMultiply(N, 2, 48726231, 43577570796226597944675, 11918469643454483867885, 284364251672060086821265);
    Square(N, 2, 97452463, 284364251672060086821265, 253754914877407855193934, 317017674550655390818651);
    SquareAndMultiply(N, 2, 194904926, 317017674550655390818651, 630756031792073469598717, 238954995681130201172065);
    SquareAndMultiply(N, 2, 389809853, 238954995681130201172065, 358365909351404327806697, 88378870149642388442133);
    Square(N, 2, 779619707, 88378870149642388442133, 24511018350122139256315, 303702674733032122823474);
    SquareAndMultiply(N, 2, 1559239414, 303702674733032122823474, 578884197177071163378416, 31572690484756201935576);
    SquareAndMultiply(N, 2, 3118478829, 31572690484756201935576, 6256301137634834808369, 299412808545203145622443);
    SquareAndMultiply(N, 2, 6236957659, 299412808545203145622443, 562645967348138849379114, 6488726810871720766944);
    Square(N, 2, 12473915319, 6488726810871720766944, 132124526650903554010, 315077964363509995030526);
    SquareAndMultiply(N, 2, 24947830638, 315077964363509995030526, 623060934749763041350654, 264720887455540967803858);
    SquareAndMultiply(N, 2, 49895661277, 264720887455540967803858, 439815854334461226482343, 107889940756980366727205);
  }

  lemma QuarterPower3()
    ensures Power(PSEUDOPRIME, 3, QUARTER, 318665857834031151167460)
  {
    hide Power, Pow;
    FirstPower(PSEUDOPRIME, 3);
    Square(N, 3, 1, 3, 0, 9);
    SquareAndMultiply(N, 3, 2, 9, 0, 243);
    SquareAndMultiply(N, 3, 5, 243, 0, 177147);
    SquareAndMultiply(N, 3, 11, 177147, 0, 94143178827);
    Square(N, 3, 23, 94143178827, 0, 8862938119652501095929);
    Square(N, 3, 46, 8862938119652501095929, 246501688780543955716, 253107606503365576215965);
    SquareAndMultiply(N, 3, 92, 253107606503365576215965, 603109422251583101583114, 98452546558506538790121);
    SquareAndMultiply(N, 3, 185, 98452546558506538790121, 91251419179991306569900, 100802270716595059560023);
    SquareAndMultiply(N, 3, 371, 100802270716595059560023, 95659113128905031531443, 204467567468832839305364);
    SquareAndMultiply(N, 3, 743, 204467567468832839305364, 393581412493795872878578, 171964776146318719967030);
    Square(N, 3, 1487, 171964776146318719967030, 92799035441240325513114, 132105309462439321437346);
    Square(N, 3, 2974, 132105309462439321437346, 54765241895654175389474, 3990915998385932818202);
    Square(N, 3, 5948, 3990915998385932818202, 49981540584332588508, 175867447427805670374616);
    Square(N, 3, 11896, 175867447427805670374616, 97058904505799758299199, 239109587120213185983717);
    Square(N, 3, 23792, 239109587120213185983717, 179414873753359858148886, 133706088218231732537643);
    Square(N, 3, 47584, 133706088218231732537643, 56100512769499467498759, 35915316140295993314550);
    Square(N, 3, 95168, 35915316140295993314550, 4047844793367295805949, 284228688060454982677011);
    SquareAndMultiply(N, 3, 190336, 284228688060454982677011, 760539089430559804847368, 157560148412447730589715);
    SquareAndMultiply(N, 3, 380673, 157560148412447730589715, 233710638502246924069138, 4049654837755611425057);
    Square(N, 3, 761347, 4049654837755611425057, 51463637856989336542, 172046223074759198793387);
    SquareAndMultiply(N, 3, 1522694, 172046223074759198793387, 278660880793569166541171, 60150931044614172758476);
    Square(N, 3, 3045389, 60150931044614172758476, 11354007392339911710803, 270760736102839774061393);
    SquareAndMultiply(N, 3, 6090778, 270760736102839774061393, 690171611542400985379291, 280631169825775856851196);
    SquareAndMultiply(N, 3, 12181557, 280631169825775856851196, 741408452223962620485090, 36909562047888616234758);
    SquareAndMultiply(N, 3, 24363115, 36909562047888616234758, 12825181020269198832555, 269984981779228398462837);
    SquareAndMultiply(N, 3, 48726231, 269984981779228398462837, 686222467148904366966153, 16940404978084788318174);
    Square(N, 3, 97452463, 16940404978084788318174, 900558731870750249665, 17476334797753484543711);
    SquareAndMultiply(N, 3, 194904926, 17476334797753484543711, 2875321630366569748885, 208243170682468255923578);
    SquareAndMultiply(N, 3, 389809853, 208243170682468255923578, 408250997743911956062027, 132401265027380148862805);
    Square(N, 3, 779619707, 132401265027380148862805, 55010897935544300120798, 44834090582913685514147);
    SquareAndMultiply(N, 3, 1559239414, 44834090582913685514147, 18923542911620759459200, 138265263972664214321627);
    SquareAndMultiply(N, 3, 3118478829, 138265263972664214321627, 179974880440946936922855, 97676180258387256560232);
    SquareAndMultiply(N, 3, 6236957659, 97676180258387256560232, 89817932690215781391635, 117775868518372422092737);
    Square(N, 3, 12473915319, 117775868518372422092737, 43528840207542345774112, 187796520824478037581537);
    SquareAndMultiply(N, 3, 24947830638, 187796520824478037581537, 332017368978512847794680, 304888591501150544939627);
    SquareAndMultiply(N, 3, 49895661277, 304888591501150544939627, 875120923145488517035707, 318665857834031151167460);
  }

  lemma QuarterPower5()
    ensures Power(PSEUDOPRIME, 5, QUARTER, 1)
  {
    hide Power, Pow;
    FirstPower(PSEUDOPRIME, 5);
    Square(N, 5, 1, 5, 0, 25);
    SquareAndMultiply(N, 5, 2, 25, 0, 3125);
    SquareAndMultiply(N, 5, 5, 3125, 0, 48828125);
    SquareAndMultiply(N, 5, 11, 48828125, 0, 11920928955078125);
    Square(N, 5, 23, 11920928955078125, 445948455, 189684198889224174292870);
    Square(N, 5, 46, 189684198889224174292870, 112908535457181149070028, 51418787398917888877992);
    SquareAndMultiply(N, 5, 92, 51418787398917888877992, 41483761635865608002150, 70968208201507011719170);
    SquareAndMultiply(N, 5, 185, 70968208201507011719170, 79024571530276244971417, 119809679105724601982263);
    SquareAndMultiply(N, 5, 371, 119809679105724601982263, 225225873034895348562162, 142404332869470802795163);
    SquareAndMultiply(N, 5, 743, 142404332869470802795163, 318185860227311058130691, 31723005276207716337294);
    Square(N, 5, 1487, 31723005276207716337294, 3158007169624156672759, 75105922116818589347537);
    Square(N, 5, 2974, 75105922116818589347537, 17701612514621933500482, 300741738919930661750167);
    Square(N, 5, 5948, 300741738919930661750167, 283825804695054526453067, 63549723226359050475002);
    Square(N, 5, 11896, 63549723226359050475002, 12673360584020337788012, 74305047431013696622472);
    Square(N, 5, 23792, 74305047431013696622472, 17326111153711326925559, 175352100414533805355085);
    Square(N, 5, 47584, 175352100414533805355085, 96490911604980387556077, 149362075899387780146728);
    Square(N, 5, 95168, 149362075899387780146728, 70007593121549769519196, 126139879537961159024628);
    SquareAndMultiply(N, 5, 190336, 126139879537961159024628, 249654439261239029246099, 21452509518935022707281);
    SquareAndMultiply(N, 5, 380673, 21452509518935022707281, 7220889112314101281654, 303376737542934571004311);
    Square(N, 5, 761347, 303376737542934571004311, 288821166810188755710067, 164668304201354100054834);
    SquareAndMultiply(N, 5, 1522694, 164668304201354100054834, 425455845707075650189526, 95896442173828219624294);
    Square(N, 5, 3045389, 95896442173828219624294, 28858214319238254267175, 176239876205628254605761);
    SquareAndMultiply(N, 5, 6090778, 176239876205628254605761, 487352083716985851243027, 121434012592378586401158);
    SquareAndMultiply(N, 5, 12181557, 121434012592378586401158, 231374322848953386976974, 95051050449976893661806);
    SquareAndMultiply(N, 5, 24363115, 95051050449976893661806, 141758239383610763216282, 104320284343257972108178);
    SquareAndMultiply(N, 5, 48726231, 104320284343257972108178, 170754435373590882199332, 250311178346893558062368);
    Square(N, 5, 97452463, 250311178346893558062368, 196618760576612960496450, 313627235570962931753974);
    SquareAndMultiply(N, 5, 194904926, 313627235570962931753974, 1543341410348290213117251, 281358707680355594993669);
    SquareAndMultiply(N, 5, 389809853, 281358707680355594993669, 1242096077151598112073323, 161745141462750066664902);
    Square(N, 5, 779619707, 161745141462750066664902, 82096936787092405946786, 158188672791486217939258);
    SquareAndMultiply(N, 5, 1559239414, 158188672791486217939258, 392631585473534075965324, 104699980959777734830456);
    SquareAndMultiply(N, 5, 3118478829, 104699980959777734830456, 171999694091595128605643, 300349924493898803257257);
    SquareAndMultiply(N, 5, 6236957659, 300349924493898803257257, 1415433673325529146584668, 201820132481555532732297);
    Square(N, 5, 12473915319, 201820132481555532732297, 127818418175462343753180, 253692530892512835620229);
    SquareAndMultiply(N, 5, 24947830638, 253692530892512835620229, 1009833633701806306907420, 281606676619314126601585);
    SquareAndMultiply(N, 5, 49895661277, 281606676619314126601585, 1244286426785600588910484, 1);
  }

  lemma QuarterPower7()
    ensures Power(PSEUDOPRIME, 7, QUARTER, 103782637039805229854323)
  {
    hide Power, Pow;
    FirstPower(PSEUDOPRIME, 7);
    Square(N, 7, 1, 7, 0, 49);
    SquareAndMultiply(N, 7, 2, 49, 0, 16807);
    SquareAndMultiply(N, 7, 5, 16807, 0, 1977326743);
    SquareAndMultiply(N, 7, 11, 1977326743, 0, 27368747340080916343);
    Square(N, 7, 23, 27368747340080916343, 2350576042430339, 250684140814562948494370);
    Square(N, 7, 46, 250684140814562948494370, 197205119127212968347838, 289408839567055886397582);
    SquareAndMultiply(N, 7, 92, 289408839567055886397582, 1839865553598809500999208, 55008632622678391756180);
    SquareAndMultiply(N, 7, 185, 55008632622678391756180, 66469774280461177375742, 44871899841928416215738);
    SquareAndMultiply(N, 7, 371, 44871899841928416215738, 44229437893874080670846, 217916114139932945650502);
    SquareAndMultiply(N, 7, 743, 217916114139932945650502, 1043136631807183342519823, 4285967479471544884625);
    Square(N, 7, 1487, 4285967479471544884625, 57645074875435680467, 116649489890442557706338);
    Square(N, 7, 2974, 116649489890442557706338, 42700223940486801337144, 304783936669539981898860);
    Square(N, 7, 5948, 304783936669539981898860, 291506748426633134625220, 7749023174865575333180);
    Square(N, 7, 11896, 7749023174865575333180, 188433616869862071578, 240327853961969362388942);
    Square(N, 7, 23792, 240327853961969362388942, 181247774024310936263171, 167886147337603896000533);
    Square(N, 7, 47584, 167886147337603896000533, 88449257348879418264190, 311606617197708506762499);
    Square(N, 7, 95168, 311606617197708506762499, 304703756283707615119577, 222658862343935726241004);
    SquareAndMultiply(N, 7, 190336, 222658862343935726241004, 1089036601601719703577083, 317729029997337981599849);
    SquareAndMultiply(N, 7, 380673, 317729029997337981599849, 2217564694016865001395915, 15699554373279971437792);
    Square(N, 7, 761347, 15699554373279971437792, 773462237827639865886, 209135065570705358699818);
    SquareAndMultiply(N, 7, 1522694, 209135065570705358699818, 960762886993370088805482, 59812916386564795810666);
    Square(N, 7, 3045389, 59812916386564795810666, 11226759562455177833622, 25302626148170001189814);
    SquareAndMultiply(N, 7, 6090778, 25302626148170001189814, 14063509220659899916027, 155275773645572686684725);
    SquareAndMultiply(N, 7, 12181557, 155275773645572686684725, 529626745443559311291971, 81610808023163952523744);
    SquareAndMultiply(N, 7, 24363115, 81610808023163952523744, 146304559328216616295057, 296383380634086192902475);
    SquareAndMultiply(N, 7, 48726231, 296383380634086192902475, 1929612925564441753454243, 166008784663855133892352);
    Square(N, 7, 97452463, 166008784663855133892352, 86482175319589996937428, 25084369190785157461596);
    SquareAndMultiply(N, 7, 194904926, 25084369190785157461596, 13821935847897744002944, 5811346323302483065328);
    SquareAndMultiply(N, 7, 389809853, 5811346323302483065328, 741849861897200746814, 63822414380424634013834);
    Square(N, 7, 779619707, 63822414380424634013834, 12782356431381820962650, 86625751006143327047906);
    SquareAndMultiply(N, 7, 1559239414, 86625751006143327047906, 164837693999230735869468, 17273536174084627913104);
    SquareAndMultiply(N, 7, 3118478829, 17273536174084627913104, 6554280329553465359349, 214734866250423983460823);
    SquareAndMultiply(N, 7, 6236957659, 214734866250423983460823, 1012902485628763528854267, 315127914473561849455216);
    Square(N, 7, 12473915319, 315127914473561849455216, 311629250637127431934236, 230347311658251214511860);
    SquareAndMultiply(N, 7, 24947830638, 230347311658251214511860, 1165544343036362132224913, 47245799484117185461307);
    SquareAndMultiply(N, 7, 49895661277, 47245799484117185461307, 49033050131124536222220, 103782637039805229854323);
  }

  lemma QuarterPower11()
    ensures Power(PSEUDOPRIME, 11, QUARTER, 318665857834031151167460)
  {
    hide Power, Pow;
    FirstPower(PSEUDOPRIME, 11);
    Square(N, 11, 1, 11, 0, 121);
    SquareAndMultiply(N, 11, 2, 121, 0, 161051);
    SquareAndMultiply(N, 11, 5, 161051, 0, 285311670611);
    SquareAndMultiply(N, 11, 11, 285311670611, 2, 258098527587175069911609);
    Square(N, 11, 23, 258098527587175069911609, 209042946726230043257741, 195505797191619197403280);
    Square(N, 11, 46, 195505797191619197403280, 119945440642209444227546, 135957319656669719677694);
    SquareAndMultiply(N, 11, 92, 135957319656669719677694, 638061202516345065239614, 131921132387921847733942);
    SquareAndMultiply(N, 11, 185, 131921132387921847733942, 600739088199814630739641, 229565251579569525431503);
    SquareAndMultiply(N, 11, 371, 229565251579569525431503, 1819153943886340090185762, 197827180346947133338817);
    SquareAndMultiply(N, 11, 743, 197827180346947133338817, 1350918259804504553216847, 36563382696032165138912);
    Square(N, 11, 1487, 36563382696032165138912, 4195243768075035323496, 156390791025514052580088);
    Square(N, 11, 2974, 156390791025514052580088, 76751490366201587972258, 182180424915197273790806);
    Square(N, 11, 5948, 182180424915197273790806, 104152065263194370758589, 266940291999641907057107);
    Square(N, 11, 11896, 266940291999641907057107, 223610775177447808272183, 140987546053575658172086);
    Square(N, 11, 23792, 140987546053575658172086, 62377213164021454118625, 121882948509379255530271);
    Square(N, 11, 47584, 121882948509379255530271, 46617649089589862627502, 121423835933837131221019);
    Square(N, 11, 95168, 121423835933837131221019, 46267108855339928333618, 155701837646488833394463);
    SquareAndMultiply(N, 11, 190336, 155701837646488833394463, 836844230894416415203884, 114184565980911608023535);
    SquareAndMultiply(N, 11, 380673, 114184565980911608023535, 450061601093886020462655, 317968142958241651189520);
    Square(N, 11, 761347, 317968142958241651189520, 317271955720371088538367, 181084912516902817354213);
    SquareAndMultiply(N, 11, 1522694, 181084912516902817354213, 1131935512029857453610276, 138302512169029890913823);
    Square(N, 11, 3045389, 138302512169029890913823, 60023954251875855652748, 225841910249757599642501);
    SquareAndMultiply(N, 11, 6090778, 225841910249757599642501, 1760622416506457713673918, 176366441788663894902813);
    SquareAndMultiply(N, 11, 12181557, 176366441788663894902813, 1073715088295838487294249, 190498130181838487210870);
    SquareAndMultiply(N, 11, 24363115, 190498130181838487210870, 1252675502621459467929305, 261629911998331343381295);
    SquareAndMultiply(N, 11, 48726231, 261629911998331343381295, 2362827083179260215353281, 110534198709061607857734);
    Square(N, 11, 97452463, 110534198709061607857734, 38340502391121065321576, 125520407205438991176220);
    SquareAndMultiply(N, 11, 194904926, 125520407205438991176220, 543858385247769395132818, 244072212284118173537302);
    SquareAndMultiply(N, 11, 389809853, 244072212284118173537302, 2056334799579274753214064, 173166865322383395459740);
    Square(N, 11, 779619707, 173166865322383395459740, 94100960326908623524586, 137970808525863424171454);
    SquareAndMultiply(N, 11, 1559239414, 137970808525863424171454, 657100153374897466229286, 107082285324209864752430);
    SquareAndMultiply(N, 11, 3118478829, 107082285324209864752430, 395815149417429556807457, 179528994059451559397223);
    SquareAndMultiply(N, 11, 6236957659, 179528994059451559397223, 1112567437245304337416573, 79365507223076461497866);
    Square(N, 11, 12473915319, 79365507223076461497866, 19766421729612502895913, 7424560099979007067063);
    SquareAndMultiply(N, 11, 24947830638, 7424560099979007067063, 1902823928429799387239, 265473094345753898475480);
    SquareAndMultiply(N, 11, 49895661277, 265473094345753898475480,
                      2432753879897501967258540, 318665857834031151167460);
  }

  lemma QuarterPower13()
    ensures Power(PSEUDOPRIME, 13, QUARTER, 318665857834031151167460)
  {
    hide Power, Pow;
    FirstPower(PSEUDOPRIME, 13);
    Square(N, 13, 1, 13, 0, 169);
    SquareAndMultiply(N, 13, 2, 169, 0, 371293);
    SquareAndMultiply(N, 13, 5, 371293, 0, 1792160394037);
    SquareAndMultiply(N, 13, 11, 1792160394037, 131, 8678037155035564108406);
    Square(N, 13, 23, 8678037155035564108406, 236323807564599962969, 199211914498792002109127);
    Square(N, 13, 46, 199211914498792002109127, 124536048976238677541774, 202257375828634719686315);
    SquareAndMultiply(N, 13, 92, 202257375828634719686315, 1668847119728431445087772, 163417687230144562243033);
    SquareAndMultiply(N, 13, 185, 163417687230144562243033, 1089446572203087360910971, 112512953015314908393526);
    SquareAndMultiply(N, 13, 371, 112512953015314908393526, 516431665662330072489219, 21588295996708837161829);
    SquareAndMultiply(N, 13, 743, 21588295996708837161829, 19012732815873904642936, 131528296435250403422637);
    Square(N, 13, 1487, 131528296435250403422637, 54287876588803562267513, 154296719587685701039276);
    Square(N, 13, 2974, 154296719587685701039276, 74709847604447225393971, 207824987889784173826545);
    Square(N, 13, 5948, 207824987889784173826545, 135537662820106596986102, 291252073595326455010003);
    Square(N, 13, 11896, 291252073595326455010003, 266196607788958057060141, 271143838346413190788008);
    Square(N, 13, 23792, 271143838346413190788008, 230708685181819205694356, 307409842715783458057948);
    Square(N, 13, 47584, 307409842715783458057948, 296551416084747369312484, 28558157215250204087580);
    Square(N, 13, 95168, 28558157215250204087580, 2559321381569891667072, 62127248397151978712208);
    SquareAndMultiply(N, 13, 190336, 62127248397151978712208, 157460655670090845321162, 175845696722661357948750);
    SquareAndMultiply(N, 13, 380673, 175845696722661357948750, 1261453675830495010868578, 24056233728410804372042);
    Square(N, 13, 761347, 24056233728410804372042, 1816016265844619347543, 29300663477709399351441);
    SquareAndMultiply(N, 13, 1522694, 29300663477709399351441, 35023756604808625945508, 41056032648019405379065);
    Square(N, 13, 3045389, 41056032648019405379065, 5289546323701660006036, 285382786700942633479629);
    SquareAndMultiply(N, 13, 6090778, 285382786700942633479629, 3322487578317768180249815, 132963836277972774439618);
    SquareAndMultiply(N, 13, 12181557, 132963836277972774439618, 721231839560685391583964, 122212932555058457621608);
    SquareAndMultiply(N, 13, 24363115, 122212932555058457621608, 609315390132951895499830, 306722956060256783542002);
    SquareAndMultiply(N, 13, 48726231, 306722956060256783542002, 3837959426778097087259920, 285666206450110122720932);
    Square(N, 13, 97452463, 285666206450110122720932, 256083855554111105913578, 16735559099691479263166);
    SquareAndMultiply(N, 13, 194904926, 16735559099691479263166, 11425843432611458704829, 300274562288111348097059);
    SquareAndMultiply(N, 13, 389809853, 300274562288111348097059, 3678280986272458671544549, 239838172782744877123164);
    Square(N, 13, 779619707, 239838172782744877123164, 180509921943770987551848, 266974336816113357352968);
    SquareAndMultiply(N, 13, 1559239414, 266974336816113357352968, 2907681610565982220840035, 45344844696238221216177);
    SquareAndMultiply(N, 13, 3118478829, 45344844696238221216177, 83881010687875953154376, 171519948180078603479941);
    SquareAndMultiply(N, 13, 6236957659, 171519948180078603479941, 1200154314326473194741598, 37814589989673540982575);
    Square(N, 13, 12473915319, 37814589989673540982575, 4487280896065957643392, 318656022979459341562913);
    SquareAndMultiply(N, 13, 24947830638, 318656022979459341562913, 4142400449569416354959686, 86935854448251491615151);
    SquareAndMultiply(N, 13, 49895661277, 86935854448251491615151, 308322821027128598996373, 318665857834031151167460);
  }

  lemma QuarterPower17()
    ensures Power(PSEUDOPRIME, 17, QUARTER, 1)
  {
    hide Power, Pow;
    FirstPower(PSEUDOPRIME, 17);
    Square(N, 17, 1, 17, 0, 289);
    SquareAndMultiply(N, 17, 2, 289, 0, 1419857);
    SquareAndMultiply(N, 17, 5, 1419857, 0, 34271896307633);
    SquareAndMultiply(N, 17, 11, 34271896307633, 62659, 284914836965901557126914);
    Square(N, 17, 23, 284914836965901557126914, 254738505326745486795406, 314122913215769751679230);
    Square(N, 17, 46, 314122913215769751679230, 309644733445380254300972, 39985883377060546320808);
    SquareAndMultiply(N, 17, 92, 39985883377060546320808, 85295628986719044748556, 169093965697328720202372);
    SquareAndMultiply(N, 17, 185, 169093965697328720202372, 1525350347549313342400919, 278917812124647215951869);
    SquareAndMultiply(N, 17, 371, 278917812124647215951869, 4150169991965687650248279, 11661007127089962034118);
    SquareAndMultiply(N, 17, 743, 11661007127089962034118, 7254132897759913821162, 273638304105073465035026);
    Square(N, 17, 1487, 273638304105073465035026, 234973153328835401346179, 68311971105404545339157);
    Square(N, 17, 2974, 68311971105404545339157, 14643945316338420686984, 107532053579146910443025);
    Square(N, 17, 5948, 107532053579146910443025, 36286104277198358752340, 225067082251303405541885);
    Square(N, 17, 11896, 225067082251303405541885, 158960209472761953065823, 118887763591655860567822);
    Square(N, 17, 23792, 118887763591655860567822, 44354611529130104121343, 274612317825474204603561);
    Square(N, 17, 47584, 274612317825474204603561, 236648901184624564606908, 211084147932440428460133);
    Square(N, 17, 95168, 211084147932440428460133, 139822062555476217890942, 209504412655467093339427);
    SquareAndMultiply(N, 17, 190336, 209504412655467093339427, 2341530048896951907507245, 54467436268560689946648);
    SquareAndMultiply(N, 17, 380673, 54467436268560689946648, 158265864360820389689380, 214865195725176316146188);
    Square(N, 17, 761347, 214865195725176316146188, 144876054961819093740372, 48027851465003158495852);
    SquareAndMultiply(N, 17, 1522694, 48027851465003158495852, 123055124400174115865384, 285469902616606803430344);
    Square(N, 17, 3045389, 285469902616606803430344, 255732025557562309568768, 75359234054630996500288);
    SquareAndMultiply(N, 17, 6090778, 75359234054630996500288, 302960729242582357811988, 120184139877507988087580);
    SquareAndMultiply(N, 17, 12181557, 120184139877507988087580, 770562208316424727345703, 190778445884897562588717);
    SquareAndMultiply(N, 17, 24363115, 190778445884897562588717, 1941654704548297067973745, 84960004290731980692068);
    SquareAndMultiply(N, 17, 48726231, 84960004290731980692068, 385072440544573091219361, 293695785603176851570187);
    Square(N, 17, 97452463, 293695785603176851570187, 270682322440680346276974, 251490293438122424871955);
    SquareAndMultiply(N, 17, 194904926, 251490293438122424871955, 3374083618807611540150075, 244931635303257077164850);
    SquareAndMultiply(N, 17, 389809853, 244931635303257077164850, 3200391809971486591067198, 36593989802027681838222);
    Square(N, 17, 779619707, 36593989802027681838222, 4202270361603507431328, 112056200225092494503076);
    SquareAndMultiply(N, 17, 1559239414, 112056200225092494503076, 669861734174981831801800, 314417273797287787620392);
    SquareAndMultiply(N, 17, 3118478829, 314417273797287787620392, 5273830671660182612449686, 277351685696496179105042);
    SquareAndMultiply(N, 17, 6236957659, 277351685696496179105042, 4103694344245631363277714, 279262040038966523705834);
    Square(N, 17, 12473915319, 279262040038966523705834, 244730601316388899057060, 218780790955187511310896);
    SquareAndMultiply(N, 17, 24947830638, 218780790955187511310896,
                      2553475894397241116424031, 314262829283331095832581);
    SquareAndMultiply(N, 17, 49895661277, 314262829283331095832581, 5268650840687870903869576, 1);
  }

  lemma QuarterPower19()
    ensures Power(PSEUDOPRIME, 19, QUARTER, 318665857834031151167460)
  {
    hide Power, Pow;
    FirstPower(PSEUDOPRIME, 19);
    Square(N, 19, 1, 19, 0, 361);
    SquareAndMultiply(N, 19, 2, 361, 0, 2476099);
    SquareAndMultiply(N, 19, 5, 2476099, 0, 116490258898219);
    SquareAndMultiply(N, 19, 11, 116490258898219, 809090, 269030371463150145046769);
    Square(N, 19, 23, 269030371463150145046769, 227126122834584974780806, 221778955127915722785795);
    Square(N, 19, 46, 221778955127915722785795, 154349465838437134468581, 16884602448413479739184);
    SquareAndMultiply(N, 19, 92, 16884602448413479739184, 16998075143022036530376, 133945900858702445435928);
    SquareAndMultiply(N, 19, 185, 133945900858702445435928, 1069736761563206198741691, 204213624807817287885945);
    SquareAndMultiply(N, 19, 371, 204213624807817287885945, 2486494448986411407490991, 268633269419928752473624);
    SquareAndMultiply(N, 19, 743, 268633269419928752473624, 4302666261974224746336094, 142049158157367115536810);
    Square(N, 19, 1487, 142049158157367115536810, 63320129336622769033751, 235035862017391902999889);
    Square(N, 19, 2974, 235035862017391902999889, 173353545967355480838307, 35473523599719513283794);
    Square(N, 19, 5948, 35473523599719513283794, 3948872606350088174079, 172760861179174534591017);
    Square(N, 19, 11896, 172760861179174534591017, 93660222523476908141697, 116734507760953893372972);
    Square(N, 19, 23792, 116734507760953893372972, 42762489194212471513271, 5483125301302095237853);
    Square(N, 19, 47584, 5483125301302095237853, 94345416462649703903, 295057256959396225749326);
    Square(N, 19, 95168, 295057256959396225749326, 273197717120186383780283, 264997972003340226482813);
    SquareAndMultiply(N, 19, 190336, 264997972003340226482813, 4187001981387948432748144, 303026945354856922524027);
    SquareAndMultiply(N, 19, 380673, 303026945354856922524027, 5474955097070629448343311, 35647474320753473434480);
    Square(N, 19, 761347, 35647474320753473434480, 3987695556988761416987, 20750121713549165810393);
    SquareAndMultiply(N, 19, 1522694, 20750121713549165810393, 25671979819299423511873, 20394536128291564710078);
    Square(N, 19, 3045389, 20394536128291564710078, 1305245270752601119388, 143681727567476552932216);
    SquareAndMultiply(N, 19, 6090778, 143681727567476552932216, 1230895397972024895528478, 186042278285034050288106);
    SquareAndMultiply(N, 19, 12181557, 186042278285034050288106, 2063675290946106949513318, 256024648744689028531886);
    SquareAndMultiply(N, 19, 24363115, 256024648744689028531886, 3908243584666146564140912, 152493880567226542358492);
    SquareAndMultiply(N, 19, 48726231, 152493880567226542358492, 1386509654977524816002610, 81223230942722322694006);
    Square(N, 19, 97452463, 81223230942722322694006, 20702604570241699447145, 4194040926840494979191);
    SquareAndMultiply(N, 19, 194904926, 4194040926840494979191, 1048777578168769157374, 282020370110701600267725);
    SquareAndMultiply(N, 19, 389809853, 282020370110701600267725, 4742190783354083334650930, 197731266783617447448145);
    Square(N, 19, 779619707, 197731266783617447448145, 122691693831276696381348, 228489957656548199023597);
    SquareAndMultiply(N, 19, 1559239414, 228489957656548199023597, 3112807757285883165777669, 158768690630387780321362);
    SquareAndMultiply(N, 19, 3118478829, 158768690630387780321362, 1502961279318202515804704, 37616094876870401629292);
    SquareAndMultiply(N, 19, 6236957659, 37616094876870401629292, 84365615647254755331690, 205734077579137865864926);
    Square(N, 19, 12473915319, 205734077579137865864926, 132824115407378795646518, 24692964762614097434678);
    SquareAndMultiply(N, 19, 24947830638, 24692964762614097434678, 36355032651851053383660, 96174890428265721222736);
    SquareAndMultiply(N, 19, 49895661277, 96174890428265721222736, 551494856158768027839724, 318665857834031151167460);
  }

  lemma QuarterPower23()
    ensures Power(PSEUDOPRIME, 23, QUARTER, 214883220794225921313138)
  {
    hide Power, Pow;
    FirstPower(PSEUDOPRIME, 23);
    Square(N, 23, 1, 23, 0, 529);
    SquareAndMultiply(N, 23, 2, 529, 0, 6436343);
    SquareAndMultiply(N, 23, 5, 6436343, 0, 952809757913927);
    SquareAndMultiply(N, 23, 11, 952809757913927, 65524647, 154320836267103512999300);
    Square(N, 23, 23, 154320836267103512999300, 74733203826879862132066, 201216823775501336585574);
    Square(N, 23, 46, 201216823775501336585574, 127055375324796779271065, 218477305658597298093511);
    SquareAndMultiply(N, 23, 92, 218477305658597298093511, 3445124835407082974385513, 37340009274042871671290);
    SquareAndMultiply(N, 23, 185, 37340009274042871671290, 100633167755834537144922, 25118298384659588291258);
    SquareAndMultiply(N, 23, 371, 25118298384659588291258, 45537871909691986130852, 59333643039049391512200);
    SquareAndMultiply(N, 23, 743, 59333643039049391512200, 254093953035704157744798, 139722903286100623702122);
    Square(N, 23, 1487, 139722903286100623702122, 61263198496981157610361, 131548113456746887639463);
    Square(N, 23, 2974, 131548113456746887639463, 54304236643518814702330, 78499263922101578044239);
    Square(N, 23, 5948, 78499263922101578044239, 19337291036434616595630, 161308730419620390293691);
    Square(N, 23, 11896, 161308730419620390293691, 81654516384186569315818, 40195638327874520205383);
    Square(N, 23, 23792, 40195638327874520205383, 5070167703459418146487, 250491965248285736317182);
    Square(N, 23, 47584, 250491965248285736317182, 196902878395677183163799, 164615522630460066476785);
    Square(N, 23, 95168, 164615522630460066476785, 85036628884833158651582, 315636850572351109362923);
    SquareAndMultiply(N, 23, 190336, 315636850572351109362923, 7190642601868490223340624, 58292283875414255154703);
    SquareAndMultiply(N, 23, 380673, 58292283875414255154703, 245253064754673613722362, 158611805932822426955925);
    Square(N, 23, 761347, 158611805932822426955925, 78946973335229599404837, 56328307030038572196768);
    SquareAndMultiply(N, 23, 1522694, 56328307030038572196768, 229005386620440824179834, 174698286977847208672478);
    Square(N, 23, 3045389, 174698286977847208672478, 95772705869511585231882, 29864703308004376468882);
    SquareAndMultiply(N, 23, 6090778, 29864703308004376468882, 64373735309955823129856, 219626287478886224772636);
    SquareAndMultiply(N, 23, 12181557, 219626287478886224772636, 3481456247089564066850770, 136449643807252404140438);
    SquareAndMultiply(N, 23, 24363115, 136449643807252404140438, 1343807663295166880685560, 25845806754763372569252);
    SquareAndMultiply(N, 23, 48726231, 25845806754763372569252, 48213924833162280779463, 243016158663435801655149);
    Square(N, 23, 97452463, 243016158663435801655149, 185325324064965988074239, 268252418108659929075022);
    SquareAndMultiply(N, 23, 194904926, 268252418108659929075022, 5193732667615411014968121, 223290377132112751400351);
    SquareAndMultiply(N, 23, 389809853, 223290377132112751400351, 3598589556314125162889290, 217302106999388713840933);
    Square(N, 23, 779619707, 217302106999388713840933, 148180937949641285856666, 101379528222512217165463);
    SquareAndMultiply(N, 23, 1559239414, 101379528222512217165463, 741810254436977903172109, 133283933462846796555238);
    SquareAndMultiply(N, 23, 3118478829, 133283933462846796555238, 1282176766352417205673409, 4615086947650226698263);
    SquareAndMultiply(N, 23, 6236957659, 4615086947650226698263, 1537276809697273083630, 125143380924850298231457);
    Square(N, 23, 12473915319, 125143380924850298231457, 49145101065262979425595, 81720711634394509778554);
    SquareAndMultiply(N, 23, 24947830638, 81720711634394509778554, 482010590575196082678393, 315599011286878972240895);
    SquareAndMultiply(N, 23, 49895661277, 315599011286878972240895,
                      7188918643032083005767617, 214883220794225921313138);
  }

  lemma QuarterPower29()
    ensures Power(PSEUDOPRIME, 29, QUARTER, 318665857834031151167460)
  {
    hide Power, Pow;
    FirstPower(PSEUDOPRIME, 29);
    Square(N, 29, 1, 29, 0, 841);
    SquareAndMultiply(N, 29, 2, 841, 0, 20511149);
    SquareAndMultiply(N, 29, 5, 20511149, 0, 12200509765705829);
    SquareAndMultiply(N, 29, 11, 12200509765705829, 13546229103, 225602446987565747922506);
    Square(N, 29, 23, 225602446987565747922506, 159717342901810074518761, 51531955639042084084215);
    Square(N, 29, 46, 51531955639042084084215, 8333313364769914179994, 272783399562623622190991);
    SquareAndMultiply(N, 29, 92, 272783399562623622190991, 6771709789993285034483221, 27551162426066199628468);
    SquareAndMultiply(N, 29, 185, 27551162426066199628468, 69078407487449881054518, 141199954227914356144898);
    SquareAndMultiply(N, 29, 371, 141199954227914356144898, 1814393889181943782730180, 278515191301601812808736);
    SquareAndMultiply(N, 29, 743, 278515191301601812808736, 7059277253852804927947950, 9707871718056677958234);
    Square(N, 29, 1487, 9707871718056677958234, 295741671024351221558, 145740521289941877074518);
    Square(N, 29, 2974, 145740521289941877074518, 66653828842016896508484, 82550331123294833693200);
    Square(N, 29, 5948, 82550331123294833693200, 21384647903242916830830, 153862984466670988617370);
    Square(N, 29, 11896, 153862984466670988617370, 74290412377095421841834, 138956879352696276353426);
    Square(N, 29, 23792, 138956879352696276353426, 60593294966341791566877, 22721608163665054148179);
    Square(N, 29, 47584, 22721608163665054148179, 1620102891010109548368, 179312121466928641762393);
    Square(N, 29, 95168, 179312121466928641762393, 100898279858134481402108, 237722711848920682678661);
    SquareAndMultiply(N, 29, 190336, 237722711848920682678661, 5142849489037187829873117, 59664635962785308788772);
    SquareAndMultiply(N, 29, 380673, 59664635962785308788772, 323963776522136930040072, 108559195167101372274344);
    Square(N, 29, 761347, 108559195167101372274344, 36982621657155279829715, 239433940735907671726721);
    SquareAndMultiply(N, 29, 1522694, 239433940735907671726721, 5217156800586223380438843, 255507037735859494855766);
    Square(N, 29, 3045389, 255507037735859494855766, 204866146553281922054927, 214645705913236926316409);
    SquareAndMultiply(N, 29, 6090778, 214645705913236926316409, 4192826310368776847074150, 243416814946555362769999);
    SquareAndMultiply(N, 29, 12181557, 243416814946555362769999, 5392170469225398143889839, 118079792422954434011250);
    SquareAndMultiply(N, 29, 24363115, 118079792422954434011250, 1268859760280260106672565, 144746528287392860905035);
    SquareAndMultiply(N, 29, 48726231, 144746528287392860905035, 1906684230987769687592022, 144184501625928192589383);
    Square(N, 29, 97452463, 144184501625928192589383, 65238148355211589673755, 61755089050358082634634);
    SquareAndMultiply(N, 29, 194904926, 61755089050358082634634, 347062720922282317693508, 69515583704704372561536);
    SquareAndMultiply(N, 29, 389809853, 69515583704704372561536, 439771225913242851982808, 124780542301109192689096);
    Square(N, 29, 779619707, 124780542301109192689096, 48860533233115381549806, 294742661547099299234650);
    SquareAndMultiply(N, 29, 1559239414, 294742661547099299234650, 7905848077556819447037550, 310722004052056652891950);
    SquareAndMultiply(N, 29, 3118478829, 310722004052056652891950, 8786309174420300271749878, 50745268586395784952742);
    SquareAndMultiply(N, 29, 6236957659, 50745268586395784952742, 234343857044615489756839, 175476682292806167222577);
    Square(N, 29, 12473915319, 175476682292806167222577, 96628067524346089829221, 170216897620901996343048);
    SquareAndMultiply(N, 29, 24947830638, 170216897620901996343048,
                      2636743015225909523963631, 134767175087131885367925);
    SquareAndMultiply(N, 29, 49895661277, 134767175087131885367925,
                      1652839612401539607408765, 318665857834031151167460);
  }

  lemma QuarterPower31()
    ensures Power(PSEUDOPRIME, 31, QUARTER, 214883220794225921313138)
  {
    hide Power, Pow;
    FirstPower(PSEUDOPRIME, 31);
    Square(N, 31, 1, 31, 0, 961);
    SquareAndMultiply(N, 31, 2, 961, 0, 28629151);
    SquareAndMultiply(N, 31, 5, 28629151, 0, 25408476896404831);
    SquareAndMultiply(N, 31, 11, 25408476896404831, 62803438624, 5395283289021384881727);
    Square(N, 31, 23, 5395283289021384881727, 91346722760472579187, 120732110908724958268322);
    Square(N, 31, 46, 120732110908724958268322, 45741463185140850756995, 778465927273086555989);
    SquareAndMultiply(N, 31, 92, 778465927273086555989, 58952927449993373940, 61798687450984851445411);
    SquareAndMultiply(N, 31, 185, 61798687450984851445411, 371522106871772204801981, 10120181486514826186310);
    SquareAndMultiply(N, 31, 371, 10120181486514826186310, 9963289743369734571963, 33868154113123205403157);
    SquareAndMultiply(N, 31, 743, 33868154113123205403157, 111585872410774460701385, 33924360220638422932634);
    Square(N, 31, 1487, 33924360220638422932634, 3611501477447362341051, 223802837240172206436445);
    Square(N, 31, 2974, 223802837240172206436445, 157179405089697109373590, 241888896428750923483035);
    Square(N, 31, 5948, 241888896428750923483035, 183610000183931005338765, 149771591745462382885560);
    Square(N, 31, 11896, 149771591745462382885560, 70392008251013625573243, 244537828371947242667577);
    Square(N, 31, 23792, 244537828371947242667577, 187653455915608486369890, 6554264531211548901639);
    Square(N, 31, 47584, 6554264531211548901639, 134806985088033827005, 288093991660401837802016);
    Square(N, 31, 95168, 288093991660401837802016, 260455100508605841521754, 292394830526064085217662);
    SquareAndMultiply(N, 31, 190336, 292394830526064085217662, 8316977734871418489123451, 170997159520134215905653);
    SquareAndMultiply(N, 31, 380673, 170997159520134215905653, 2844486985972238323436436, 250633165963606093039683);
    Square(N, 31, 761347, 250633165963606093039683, 197124926742723448333349, 207706083900642562783600);
    SquareAndMultiply(N, 31, 1522694, 207706083900642562783600, 4196861079062043721914497, 280234927140981727177883);
    Square(N, 31, 3045389, 280234927140981727177883, 246438745975141434967157, 204945399274370782283312);
    SquareAndMultiply(N, 31, 6090778, 204945399274370782283312, 4086038981539792835988159, 187170053694618822275365);
    SquareAndMultiply(N, 31, 12181557, 187170053694618822275365, 3407994525623332426680827, 201025677221446187409728);
    SquareAndMultiply(N, 31, 24363115, 201025677221446187409728, 3931236996920567510121435, 68664612910612489426969);
    SquareAndMultiply(N, 31, 48726231, 68664612910612489426969, 458661313905850819599794, 164589014359949625232757);
    Square(N, 31, 97452463, 164589014359949625232757, 85009243952606276076052, 280324753402092602077077);
    SquareAndMultiply(N, 31, 194904926, 280324753402092602077077, 7644499492433901233987913, 102299200262191401882906);
    SquareAndMultiply(N, 31, 389809853, 102299200262191401882906, 1018053580662435960906892, 157326706915784064108704);
    Square(N, 31, 779619707, 157326706915784064108704, 77672873012509217680587, 18747646545730282780009);
    SquareAndMultiply(N, 31, 1559239414, 18747646545730282780009, 34191619570325461288432, 133389987061860137131359);
    SquareAndMultiply(N, 31, 3118478829, 133389987061860137131359, 1730902556829717110637894, 166243736421077730426177);
    SquareAndMultiply(N, 31, 6236957659, 166243736421077730426177, 2688541479466174531737383, 273280598190922345000636);
    Square(N, 31, 12473915319, 273280598190922345000636, 234359230873376717453230, 29297682134173675055466);
    SquareAndMultiply(N, 31, 24947830638, 29297682134173675055466, 83501193734240763126151, 178951368383499801419225);
    SquareAndMultiply(N, 31, 49895661277, 178951368383499801419225,
                      3115273680035019655975417, 214883220794225921313138);
  }

  lemma QuarterPower37()
    ensures Power(PSEUDOPRIME, 37, QUARTER, 214883220794225921313138)
  {
    hide Power, Pow;
    FirstPower(PSEUDOPRIME, 37);
    Square(N, 37, 1, 37, 0, 1369);
    SquareAndMultiply(N, 37, 2, 1369, 0, 69343957);
    SquareAndMultiply(N, 37, 5, 69343957, 0, 177917621779460413);
    SquareAndMultiply(N, 37, 11, 177917621779460413, 3675395830379, 42387772755215682733334);
    Square(N, 37, 23, 42387772755215682733334, 5638267278961468288516, 188473736632422375577680);
    Square(N, 37, 46, 188473736632422375577680, 111472090677152513391762, 154362681328690554326118);
    SquareAndMultiply(N, 37, 92, 154362681328690554326118, 2766628308758261640476819, 170745409154584029560629);
    SquareAndMultiply(N, 37, 185, 170745409154584029560629, 3385043546818765776471461, 258038970886427816068196);
    SquareAndMultiply(N, 37, 371, 258038970886427816068196, 7731019899972459331850377, 48148608290062416710595);
    SquareAndMultiply(N, 37, 743, 48148608290062416710595, 269174345670440934501728, 180804696350837932526317);
    Square(N, 37, 1487, 180804696350837932526317, 102585003755076336339669, 278083205458601101274080);
    Square(N, 37, 2974, 278083205458601101274080, 242668824591826899739655, 173865665996149072480445);
    Square(N, 37, 5948, 173865665996149072480445, 94861966128886638243520, 220996187776806489295305);
    Square(N, 37, 11896, 220996187776806489295305, 153261837787837957630442, 110374776895434001595263);
    Square(N, 37, 23792, 110374776895434001595263, 38229986285703121400114, 55158363519464865548615);
    Square(N, 37, 47584, 55158363519464865548615, 9547445988801257551881, 195547940259089001874084);
    Square(N, 37, 95168, 195547940259089001874084, 119997156894944268696727, 61123221350541191238909);
    SquareAndMultiply(N, 37, 190336, 61123221350541191238909, 433789122893372213206947, 65108107346955828328830);
    SquareAndMultiply(N, 37, 380673, 65108107346955828328830, 492194017367526220385601, 249977365721923795120239);
    Square(N, 37, 761347, 249977365721923795120239, 196094692409181946163843, 285919843785628631104498);
    SquareAndMultiply(N, 37, 1522694, 285919843785628631104498, 9491935634912297275730827, 272630216664806608763901);
    Square(N, 37, 3045389, 272630216664806608763901, 233245053435912196617153, 106703295814608352679268);
    SquareAndMultiply(N, 37, 6090778, 106703295814608352679268, 1321970782682025432370903, 51776012483571232798205);
    SquareAndMultiply(N, 37, 12181557, 51776012483571232798205, 311260054704447396692421, 144282151734123214701844);
    SquareAndMultiply(N, 37, 24363115, 144282151734123214701844, 2417082142622310231569977, 184894788324672762094035);
    SquareAndMultiply(N, 37, 48726231, 184894788324672762094035, 3969314661864176956238443, 7312091280246216602102);
    Square(N, 37, 97452463, 7312091280246216602102, 167782891000828486030, 115057779192594961748574);
    SquareAndMultiply(N, 37, 194904926, 115057779192594961748574, 1537085986494951406014177, 96107194819538601144015);
    SquareAndMultiply(N, 37, 389809853, 96107194819538601144015, 1072452315657177580584492, 308289439727537950233513);
    Square(N, 37, 779619707, 308289439727537950233513, 298250899213117500000208, 193413595790544285489281);
    SquareAndMultiply(N, 37, 1559239414, 193413595790544285489281, 4343503611472943392309052, 126231671648031620030585);
    SquareAndMultiply(N, 37, 3118478829, 126231671648031620030585, 1850132600675889682225485, 89534800627106014418740);
    SquareAndMultiply(N, 37, 6236957659, 89534800627106014418740, 930786188955013761607395, 206078440987368156967105);
    Square(N, 37, 12473915319, 206078440987368156967105, 133269136921165571498155, 99035048381156994546570);
    SquareAndMultiply(N, 37, 24947830638, 99035048381156994546570, 1138790996805669017450161, 238994229727339721890079);
    SquareAndMultiply(N, 37, 49895661277, 238994229727339721890079,
                      6631946586792428152478839, 214883220794225921313138);
  }

  // ---------- from the quarter power to the test ----------

  lemma {:induction false} PowerOfOne(a: int, f: nat, k: nat)
    requires Power(PSEUDOPRIME, a, f, 1)
    ensures Power(PSEUDOPRIME, a, f * k, 1)
  {
    if k == 0 {
      assert f * k == 0 && Pow(a, 0) == 1;
    } else {
      hide Power;
      PowerOfOne(a, f, k - 1);
      AddExponents(PSEUDOPRIME, a, f, 1, f * (k - 1), 1);
      OneMore(f, k);
    }
  }

  lemma OneMore(f: nat, k: nat)
    requires k >= 1
    ensures f * (k - 1) >= 0 && f + f * (k - 1) == f * k
  {
  }

  // A power that is 1 or -1 stays so under the odd exponent 2p + 1.
  lemma OddMultiple(a: int, e: nat, x: int)
    requires Power(PSEUDOPRIME, a, e, x) && (x == 1 || x == PSEUDOPRIME - 1)
    ensures Power(PSEUDOPRIME, a, e * (2 * P + 1), x)
  {
    hide Power, Pow;
    if x == 1 {
      PowerOfOne(a, e, 2 * P + 1);
    } else {
      Square(PSEUDOPRIME, a, e, x, PSEUDOPRIME - 2, 1);
      PowerOfOne(a, 2 * e, P);
      AddExponents(PSEUDOPRIME, a, 2 * e * P, 1, e, x);
      assert 2 * e * P + e == e * (2 * P + 1);
      assert 1 * x == x;
      Remainder(PSEUDOPRIME, x, 0, x);
    }
  }

  lemma PredecessorIs()
    ensures OddPart(PSEUDOPRIME - 1) == QUARTER * (2 * P + 1)
    ensures TwoAdic(PSEUDOPRIME - 1) == 2
  {
    var m := PSEUDOPRIME - 1;
    assert m == 4 * (QUARTER * (2 * P + 1));
    assert m % 2 == 0 && (m / 2) % 2 == 0 && (m / 2 / 2) % 2 == 1;
    assert OddPart(m) == OddPart(m / 2) == OddPart(m / 2 / 2);
    assert TwoAdic(m) == 1 + TwoAdic(m / 2) == 2 + TwoAdic(m / 2 / 2);
  }

  // The quarter power is 1 or -1: so is a^d.
  lemma PassesAtOnce(a: int, x: int)
    requires x == 1 || x == PSEUDOPRIME - 1
    ensures Power(PSEUDOPRIME, a, QUARTER, x) ==> Passes(PSEUDOPRIME, a)
  {
    if Power(PSEUDOPRIME, a, QUARTER, x) {
      PredecessorIs();
      OddMultiple(a, QUARTER, x);
      hide Pow, OddPart, TwoAdic;
      ChainStart(a, QUARTER * (2 * P + 1), PSEUDOPRIME);
    }
  }

  lemma PowTwoOne()
    ensures Pow(2, 1) == 2
  {
    assert Pow(2, 1) == 2 * Pow(2, 0) == 2;
  }

  // The quarter power squares to -1: so does a^d.
  lemma PassesAtSquare(a: int, x: int, q: int)
    ensures Power(PSEUDOPRIME, a, QUARTER, x) && x * x == PSEUDOPRIME * q + (PSEUDOPRIME - 1) ==> Passes(PSEUDOPRIME, a)
  {
    hide Pow, OddPart, TwoAdic;
    if Power(PSEUDOPRIME, a, QUARTER, x) && x * x == PSEUDOPRIME * q + (PSEUDOPRIME - 1) {
      PredecessorIs();
      Square(PSEUDOPRIME, a, QUARTER, x, q, PSEUDOPRIME - 1);
      OddMultiple(a, 2 * QUARTER, PSEUDOPRIME - 1);
      var d := QUARTER * (2 * P + 1);
      PowTwoOne();
      assert d * 2 == 2 * QUARTER * (2 * P + 1);
      assert Chain(a, d, 1, PSEUDOPRIME) == PSEUDOPRIME - 1;
    }
  }

  /** The number is composite, coprime to 6, and every witness passes: _is_prime says True. */
  lemma PseudoprimeIsAccepted()
    ensures Accepted(PSEUDOPRIME) && Composite(PSEUDOPRIME)
  {
    hide Power, Passes;
    assert PSEUDOPRIME == P * (2 * P - 1);
    MultipleIsDivisible(P, 2 * P - 1);
    assert Composite(PSEUDOPRIME);
    forall a | a in WITNESSES
      ensures Passes(PSEUDOPRIME, a)
    {
      if a == 2 {
        QuarterPower2();
        PassesAtSquare(a, 107889940756980366727205, 36528040360719315203665);
      }
      if a == 3 {
        QuarterPower3();
        PassesAtOnce(a, 318665857834031151167460);
      }
      if a == 5 {
        QuarterPower5();
        PassesAtOnce(a, 1);
      }
      if a == 7 {
        QuarterPower7();
        PassesAtSquare(a, 103782637039805229854323, 33799779568935379794529);
      }
      if a == 11 {
        QuarterPower11();
        PassesAtOnce(a, 318665857834031151167460);
      }
      if a == 13 {
        QuarterPower13();
        PassesAtOnce(a, 318665857834031151167460);
      }
      if a == 17 {
        QuarterPower17();
        PassesAtOnce(a, 1);
      }
      if a == 19 {
        QuarterPower19();
        PassesAtOnce(a, 318665857834031151167460);
      }
      if a == 23 {
        QuarterPower23();
        PassesAtSquare(a, 214883220794225921313138, 144900363323356071253344);
      }
      if a == 29 {
        QuarterPower29();
        PassesAtOnce(a, 318665857834031151167460);
      }
      if a == 31 {
        QuarterPower31();
        PassesAtSquare(a, 214883220794225921313138, 144900363323356071253344);
      }
      if a == 37 {
        QuarterPower37();
        PassesAtSquare(a, 214883220794225921313138, 144900363323356071253344);
      }
    }
  }

  /** So the witnesses suffice up to no bound above the number. */
  lemma WitnessesFailAbove(bound: int)
    requires bound > PSEUDOPRIME
    ensures !WitnessesSuffice(bound)
  {
    hide Passes;
    PseudoprimeIsAccepted();
  }

  /** In particular not up to the bound that the documentation of _is_prime gives. */
  lemma DocumentedBoundFails()
    ensures !WitnessesSuffice(DOCUMENTED_BOUND)
  {
    WitnessesFailAbove(DOCUMENTED_BOUND);
  }
}
