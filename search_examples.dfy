/** The search view on two concrete notes, "Shopping" (no content) and
    "Work" with content "milk": "milk" shows only the second, "SHOP"
    finds "Shopping" whatever the case, and an empty search shows both. */
module SearchExamples {
  import opened Text
  import opened Http
  import opened Filtering
  import opened Page

  const SHOPPING: Note := Note("1", "Shopping", "", 0, 0)
  const WORK: Note := Note("2", "Work", "milk", 0, 0)

  lemma SearchMilk()
    ensures Filter([SHOPPING, WORK], "milk") == [WORK]
  {
    assert Query("milk") == "milk" by {
      assert ToLower("milk") == "milk";
      TrimOfTrimmed("milk");
    }
    KeepMilk();
  }

  lemma KeepMilk()
    ensures Keep([SHOPPING, WORK], Matcher("milk")) == [WORK]
  {
    ShoppingLacksMilk();
    WorkHasMilk();
    assert [SHOPPING, WORK][1..] == [WORK];
  }

  lemma SearchShopUpperCase()
    ensures Filter([SHOPPING, WORK], "SHOP") == [SHOPPING]
  {
    assert Query("SHOP") == "shop" by {
      assert ToLower("SHOP") == "shop";
      TrimOfTrimmed("shop");
    }
    KeepShop();
  }

  lemma KeepShop()
    ensures Keep([SHOPPING, WORK], Matcher("shop")) == [SHOPPING]
  {
    ShoppingHasShop();
    WorkLacksShop();
    assert [SHOPPING, WORK][1..] == [WORK];
  }

  lemma SearchEmpty()
    ensures Filter([SHOPPING, WORK], "") == [SHOPPING, WORK]
  {
    assert Trim("") == "";
  }

  lemma LowerShopping()
    ensures ToLower(SHOPPING.title) == "shopping"
  {
  }

  lemma ShoppingLacksMilk()
    ensures !Matches(SHOPPING, "milk")
  {
    LowerShopping();
    MissingFirstChar("shopping", "milk");
    MissingFirstChar("", "milk");
  }

  lemma WorkHasMilk()
    ensures Matches(WORK, "milk")
  {
    assert ToLower("milk") == "milk";
    assert Contains("milk", "milk");
  }

  lemma ShoppingHasShop()
    ensures Matches(SHOPPING, "shop")
  {
    LowerShopping();
    assert "shop" <= "shopping";
  }

  lemma WorkLacksShop()
    ensures !Matches(WORK, "shop")
  {
    assert ToLower("Work") == "work";
    assert ToLower("milk") == "milk";
    MissingFirstChar("work", "shop");
    MissingFirstChar("milk", "shop");
  }
}
